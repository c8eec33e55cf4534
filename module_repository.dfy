/** The module catalogue and the per-company module assignments
    (internal/repository/module_repository.go over the entities of
    internal/domain/module/entity.go). */
module ModuleRepository {
  import opened Common
  import opened Collections
  import opened Sorting
  import opened Tables

  /** ModuleMaster: one row of modules_master. */
  datatype ModuleMaster = ModuleMaster(
    id: nat, moduleKey: string, name: string, category: string,
    description: string, defaultEnabled: bool, createdAt: int)

  /** ModuleConfig: a JSON object (values kept as their JSON text), or nil,
      which is stored as SQL NULL. */
  datatype ModuleConfig = NilConfig | Config(entries: map<string, string>)

  /** CompanyModule: one row of company_modules, with the `Module` relation
      filled only when a query preloads it. */
  datatype CompanyModule = CompanyModule(
    id: nat, companyID: nat, moduleID: nat, isEnabled: bool, config: ModuleConfig,
    createdAt: int, updatedAt: int, master: Option<ModuleMaster>)

  function MasterKey(m: ModuleMaster): nat { m.id }

  function AssignmentKey(cm: CompanyModule): nat { cm.id }

  /** ORDER BY category, name */
  predicate CatalogLe(a: ModuleMaster, b: ModuleMaster)
  {
    if a.category != b.category then StrLe(a.category, b.category) else StrLe(a.name, b.name)
  }

  lemma CatalogLeOrders()
    ensures Total(CatalogLe) && Transitive(CatalogLe)
  {
    forall a, b ensures CatalogLe(a, b) || CatalogLe(b, a) {
      StrLeTotal(a.category, b.category);
      StrLeTotal(a.name, b.name);
    }
    forall a, b, c | CatalogLe(a, b) && CatalogLe(b, c) ensures CatalogLe(a, c) {
      if a.category == b.category && b.category == c.category {
        StrLeTransitive(a.name, b.name, c.name);
      } else if a.category == b.category {
        assert StrLe(a.category, c.category);
      } else if b.category == c.category {
        assert StrLe(a.category, c.category);
      } else {
        StrLeTransitive(a.category, b.category, c.category);
        if a.category == c.category {
          StrLeAntisymmetric(a.category, b.category);
        }
      }
    }
  }

  function HasModuleID(id: nat): ModuleMaster -> bool
  {
    (m: ModuleMaster) => m.id == id
  }

  /** WHERE company_id = ? */
  function OfCompany(companyID: nat): CompanyModule -> bool
  {
    (cm: CompanyModule) => cm.companyID == companyID
  }

  /** WHERE company_id = ? AND module_id = ? */
  function OfPair(companyID: nat, moduleID: nat): CompanyModule -> bool
  {
    (cm: CompanyModule) => cm.companyID == companyID && cm.moduleID == moduleID
  }

  function NotOfPair(companyID: nat, moduleID: nat): CompanyModule -> bool
  {
    (cm: CompanyModule) => !(cm.companyID == companyID && cm.moduleID == moduleID)
  }

  /** WHERE id = ? */
  function HasAssignmentID(id: nat): CompanyModule -> bool
  {
    (cm: CompanyModule) => cm.id == id
  }

  /** The `config` column set, and updated_at bumped as gorm's Update does. */
  function SetConfig(config: ModuleConfig, now: int): CompanyModule -> CompanyModule
  {
    (cm: CompanyModule) => cm.(config := config, updatedAt := now)
  }

  /** The row as stored: without the relation. */
  function Unloaded(cm: CompanyModule): CompanyModule
  {
    cm.(master := None)
  }

  /** What gorm's Create writes for a CompanyModule: `is_enabled` is tagged
      `default:true`, and gorm replaces a zero value of a field with a
      default by that default, so false is written as true. */
  function CreateValuesAsWritten(cm: CompanyModule): (r: CompanyModule)
    ensures r.isEnabled
    ensures r.(isEnabled := cm.isEnabled) == cm
    ensures cm.isEnabled ==> r == cm
  {
    if cm.isEnabled then cm else cm.(isEnabled := true)
  }

  /** Whatever the request asked for, gorm stores the assignment enabled. */
  lemma DisabledAssignmentStoredEnabled(cm: CompanyModule)
    requires !cm.isEnabled
    ensures CreateValuesAsWritten(cm).isEnabled
    ensures CreateValuesAsWritten(cm) != cm
  {
  }

  /** Preload("Module"): the catalogue row the assignment refers to, if
      there is one. */
  function Preload(catalog: seq<ModuleMaster>, cm: CompanyModule): (r: CompanyModule)
    ensures Unloaded(r) == Unloaded(cm)
    ensures r.master.Some? <==> exists i :: 0 <= i < |catalog| && catalog[i].id == cm.moduleID
    ensures r.master.Some? ==> r.master.value in catalog && r.master.value.id == cm.moduleID
  {
    match First(catalog, HasModuleID(cm.moduleID))
    case Ok(m) => cm.(master := Some(m))
    case Err(_) => cm.(master := None)
  }

  function Preloader(catalog: seq<ModuleMaster>): CompanyModule -> CompanyModule
  {
    (cm: CompanyModule) => Preload(catalog, cm)
  }

  /** No assignment pair (company, module) occurs twice. */
  ghost predicate PairsUnique(rows: seq<CompanyModule>)
  {
    forall i, j :: 0 <= i < j < |rows| ==>
      !(rows[i].companyID == rows[j].companyID && rows[i].moduleID == rows[j].moduleID)
  }

  class ModuleStore {
    /** modules_master, in id order; the service never writes it. */
    var catalog: seq<ModuleMaster>
    /** company_modules, in id order, relations not loaded. */
    var assignments: seq<CompanyModule>
    /** The next auto-increment id of company_modules. */
    var nextID: nat

    ghost predicate Valid()
      reads this
    {
      && nextID >= 1
      && Ascending(catalog, MasterKey)
      && KeyOrdered(assignments, AssignmentKey, nextID)
      && forall i :: 0 <= i < |assignments| ==> assignments[i].master.None?
    }

    constructor (catalog: seq<ModuleMaster>)
      requires Ascending(catalog, MasterKey)
      ensures Valid()
      ensures this.catalog == catalog && assignments == [] && nextID == 1
    {
      this.catalog := catalog;
      assignments := [];
      nextID := 1;
    }

    /** ListAllModules: the whole catalogue ordered by category, then name. */
    function ListAllModules(): (r: seq<ModuleMaster>)
      reads this
      ensures multiset(r) == multiset(catalog)
      ensures Sorted(CatalogLe, r)
    {
      CatalogLeOrders();
      SortSorted(CatalogLe, catalog);
      Sort(CatalogLe, catalog)
    }

    /** GetModuleByID: the module with that id, or ErrRecordNotFound. */
    function GetModuleByID(id: nat): (r: Result<ModuleMaster>)
      reads this
      ensures r.Ok? <==> exists i :: 0 <= i < |catalog| && catalog[i].id == id
      ensures r.Ok? ==> r.value in catalog && r.value.id == id
      ensures r.Err? ==> r.error == RecordNotFound
    {
      First(catalog, HasModuleID(id))
    }

    /** GetCompanyModules: the company's assignments in id order, each with
        its module loaded. */
    function GetCompanyModules(companyID: nat): (r: seq<CompanyModule>)
      reads this
      ensures MapSeq(r, Unloaded) == MapSeq(Filter(assignments, OfCompany(companyID)), Unloaded)
      ensures forall i :: 0 <= i < |r| ==> r[i].companyID == companyID
      ensures forall i :: 0 <= i < |r| ==>
                (r[i].master.Some? <==> GetModuleByID(r[i].moduleID).Ok?)
      ensures forall i :: 0 <= i < |r| && r[i].master.Some? ==>
                r[i].master.value in catalog && r[i].master.value.id == r[i].moduleID
    {
      var rows := Filter(assignments, OfCompany(companyID));
      assert forall i :: 0 <= i < |rows| ==> rows[i] in rows;
      MapSeq(rows, Preloader(catalog))
    }

    /** GetCompanyModule: the first assignment of that module to that
        company, or ErrRecordNotFound. */
    function GetCompanyModule(companyID: nat, moduleID: nat): (r: Result<CompanyModule>)
      reads this
      ensures r.Ok? <==> exists i :: 0 <= i < |assignments|
                           && assignments[i].companyID == companyID && assignments[i].moduleID == moduleID
      ensures r.Ok? ==> r.value in assignments && r.value.companyID == companyID && r.value.moduleID == moduleID
      ensures r.Err? ==> r.error == RecordNotFound
    {
      First(assignments, OfPair(companyID, moduleID))
    }

    /** AssignModule: inserts the assignment with the next id and both
        timestamps set to `now`, with gorm's create-time defaults applied,
        so a false is_enabled is written as true, both in the table and in
        the struct Create hands back; no uniqueness check of its own; a
        database error leaves the table as it was. */
    method AssignModule(cm: CompanyModule, now: int, fault: Option<string>) returns (r: Result<CompanyModule>)
      requires Valid()
      modifies this
      ensures Valid()
      ensures catalog == old(catalog)
      ensures fault.Some? ==>
                && r == Err(Failure(fault.value))
                && assignments == old(assignments) && nextID == old(nextID)
      ensures fault.None? ==>
                && r == Ok(CreateValuesAsWritten(cm).(id := old(nextID), createdAt := now, updatedAt := now))
                && r.value.isEnabled
                && assignments == old(assignments) + [Unloaded(r.value)]
                && nextID == old(nextID) + 1
    {
      if fault.Some? {
        return Err(Failure(fault.value));
      }
      var row := CreateValuesAsWritten(cm).(id := nextID, createdAt := now, updatedAt := now);
      AppendKeyOrdered(assignments, AssignmentKey, nextID, Unloaded(row));
      assignments := assignments + [Unloaded(row)];
      nextID := nextID + 1;
      r := Ok(row);
    }

    /** The corrected insert: every column written as given,
        is_enabled included, with the next id and both timestamps `now`. */
    method AssignModuleAsGiven(cm: CompanyModule, now: int, fault: Option<string>) returns (r: Result<CompanyModule>)
      requires Valid()
      modifies this
      ensures Valid()
      ensures catalog == old(catalog)
      ensures fault.Some? ==>
                && r == Err(Failure(fault.value))
                && assignments == old(assignments) && nextID == old(nextID)
      ensures fault.None? ==>
                && r == Ok(cm.(id := old(nextID), createdAt := now, updatedAt := now))
                && assignments == old(assignments) + [Unloaded(r.value)]
                && nextID == old(nextID) + 1
    {
      if fault.Some? {
        return Err(Failure(fault.value));
      }
      var row := cm.(id := nextID, createdAt := now, updatedAt := now);
      AppendKeyOrdered(assignments, AssignmentKey, nextID, Unloaded(row));
      assignments := assignments + [Unloaded(row)];
      nextID := nextID + 1;
      r := Ok(row);
    }

    /** UpdateModuleConfig: sets the config of the row with that id (none
        when no row has it, which is not an error). */
    method UpdateModuleConfig(id: nat, config: ModuleConfig, now: int, fault: Option<string>) returns (err: Option<Error>)
      requires Valid()
      modifies this
      ensures Valid()
      ensures catalog == old(catalog) && nextID == old(nextID)
      ensures fault.Some? ==> err == Some(Failure(fault.value)) && assignments == old(assignments)
      ensures fault.None? ==>
                && err == None
                && assignments == UpdateWhere(old(assignments), HasAssignmentID(id), SetConfig(config, now))
    {
      if fault.Some? {
        return Some(Failure(fault.value));
      }
      UpdateKeyOrdered(assignments, AssignmentKey, nextID, HasAssignmentID(id), SetConfig(config, now));
      assignments := UpdateWhere(assignments, HasAssignmentID(id), SetConfig(config, now));
      err := None;
    }

    /** RemoveModule: deletes every assignment of that module to that
        company (a hard delete: company_modules has no deleted_at). */
    method RemoveModule(companyID: nat, moduleID: nat, fault: Option<string>) returns (err: Option<Error>)
      requires Valid()
      modifies this
      ensures Valid()
      ensures catalog == old(catalog) && nextID == old(nextID)
      ensures fault.Some? ==> err == Some(Failure(fault.value)) && assignments == old(assignments)
      ensures fault.None? ==>
                && err == None
                && assignments == Filter(old(assignments), NotOfPair(companyID, moduleID))
    {
      if fault.Some? {
        return Some(Failure(fault.value));
      }
      FilterKeyOrdered(assignments, AssignmentKey, nextID, NotOfPair(companyID, moduleID));
      var kept := Filter(assignments, NotOfPair(companyID, moduleID));
      assert forall i :: 0 <= i < |kept| ==> kept[i] in assignments;
      assignments := kept;
      err := None;
    }
  }

  /** After RemoveModule the pair is gone and every other assignment is
      still there, in the same order. */
  lemma RemovedPairGone(rows: seq<CompanyModule>, companyID: nat, moduleID: nat)
    ensures forall cm :: cm in Filter(rows, NotOfPair(companyID, moduleID)) ==>
              !(cm.companyID == companyID && cm.moduleID == moduleID)
    ensures forall cm :: cm in rows && !(cm.companyID == companyID && cm.moduleID == moduleID) ==>
              cm in Filter(rows, NotOfPair(companyID, moduleID))
  {
  }

  /** Inserting a pair not yet assigned keeps assignment pairs unique. */
  lemma AppendKeepsPairsUnique(rows: seq<CompanyModule>, cm: CompanyModule)
    requires PairsUnique(rows)
    requires forall i :: 0 <= i < |rows| ==> !(rows[i].companyID == cm.companyID && rows[i].moduleID == cm.moduleID)
    ensures PairsUnique(rows + [cm])
  {
    var r := rows + [cm];
    forall i, j | 0 <= i < j < |r|
      ensures !(r[i].companyID == r[j].companyID && r[i].moduleID == r[j].moduleID)
    {
      assert r[i] == rows[i];
    }
  }

  /** Deleting assignments keeps pairs unique. */
  lemma {:induction false} FilterKeepsPairsUnique(rows: seq<CompanyModule>, p: CompanyModule -> bool)
    requires PairsUnique(rows)
    ensures PairsUnique(Filter(rows, p))
  {
    if rows != [] {
      var tail := Filter(rows[1..], p);
      FilterKeepsPairsUnique(rows[1..], p);
      if p(rows[0]) {
        var r := [rows[0]] + tail;
        assert Filter(rows, p) == r;
        forall i, j | 0 <= i < j < |r|
          ensures !(r[i].companyID == r[j].companyID && r[i].moduleID == r[j].moduleID)
        {
          assert r[j] == tail[j - 1];
          if i == 0 {
            assert tail[j - 1] in rows[1..];
            var m :| 0 <= m < |rows[1..]| && rows[1..][m] == tail[j - 1];
            assert rows[m + 1] == r[j];
          } else {
            assert r[i] == tail[i - 1];
          }
        }
      } else {
        assert Filter(rows, p) == tail;
      }
    }
  }
}
