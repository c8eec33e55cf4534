/** Module catalogue and assignment use cases
    (internal/service/module_service.go, responses of
    internal/domain/module/dto.go). */
module ModuleService {
  import opened Common
  import opened Collections
  import opened Sorting
  import opened ModuleRepository

  /** ModuleResponse */
  datatype ModuleResponse = ModuleResponse(
    id: nat, moduleKey: string, name: string, category: string,
    description: string, defaultEnabled: bool, createdAt: int)

  /** CompanyModuleResponse: no module id of its own; the module appears
      only through the embedded, possibly zero, ModuleResponse. */
  datatype CompanyModuleResponse = CompanyModuleResponse(
    id: nat, companyID: nat, master: ModuleResponse, isEnabled: bool,
    config: ModuleConfig, createdAt: int, updatedAt: int)

  /** AssignModuleRequest */
  datatype AssignModuleRequest = AssignModuleRequest(moduleID: nat, isEnabled: bool, config: ModuleConfig)

  /** The zero ModuleResponse a response carries when no module was loaded. */
  const ZeroModuleResponse: ModuleResponse := ModuleResponse(0, "", "", "", "", false, ZeroTime)

  /** toModuleResponse: every column of the module, unchanged. */
  function ToModuleResponse(m: ModuleMaster): (r: ModuleResponse)
    ensures r.id == m.id && r.moduleKey == m.moduleKey && r.category == m.category
  {
    ModuleResponse(m.id, m.moduleKey, m.name, m.category, m.description, m.defaultEnabled, m.createdAt)
  }

  /** The module a response describes. */
  function ModuleOfResponse(r: ModuleResponse): ModuleMaster
  {
    ModuleMaster(r.id, r.moduleKey, r.name, r.category, r.description, r.defaultEnabled, r.createdAt)
  }

  /** toModuleResponse loses nothing: the module can be read back from it. */
  lemma ModuleResponseRoundTrip(m: ModuleMaster)
    ensures ModuleOfResponse(ToModuleResponse(m)) == m
  {
  }

  /** toCompanyModuleResponse: the assignment's own fields, with the loaded
      module or the zero response. */
  function ToCompanyModuleResponse(cm: CompanyModule): (r: CompanyModuleResponse)
    ensures cm.master.Some? ==> r.master == ToModuleResponse(cm.master.value)
    ensures cm.master.None? ==> r.master == ZeroModuleResponse
    ensures r.id == cm.id && r.companyID == cm.companyID
    ensures r.isEnabled == cm.isEnabled && r.config == cm.config
    ensures r.createdAt == cm.createdAt && r.updatedAt == cm.updatedAt
  {
    CompanyModuleResponse(
      cm.id, cm.companyID,
      if cm.master.Some? then ToModuleResponse(cm.master.value) else ZeroModuleResponse,
      cm.isEnabled, cm.config, cm.createdAt, cm.updatedAt)
  }

  /** Without a loaded module, the response does not tell which module the
      assignment is for. */
  lemma UnloadedResponseHidesModule(cm: CompanyModule, moduleID: nat)
    requires cm.master.None?
    ensures ToCompanyModuleResponse(cm) == ToCompanyModuleResponse(cm.(moduleID := moduleID))
  {
  }

  /** With a loaded module that really is the assignment's module, the
      module id can be read back from the response. */
  lemma LoadedResponseNamesModule(cm: CompanyModule)
    requires cm.master.Some? && cm.master.value.id == cm.moduleID
    ensures ToCompanyModuleResponse(cm).master.id == cm.moduleID
  {
  }

  /** ListAllModules: the catalogue, ordered by category and name, as
      responses. */
  method ListAllModules(store: ModuleStore) returns (r: seq<ModuleResponse>)
    ensures |r| == |store.ListAllModules()|
    ensures forall i :: 0 <= i < |r| ==> r[i] == ToModuleResponse(store.ListAllModules()[i])
  {
    var modules := store.ListAllModules();
    r := [];
    var i := 0;
    while i < |modules|
      invariant 0 <= i <= |modules|
      invariant |r| == i
      invariant forall k :: 0 <= k < i ==> r[k] == ToModuleResponse(modules[k])
    {
      var next := r + [ToModuleResponse(modules[i])];
      assert forall k :: 0 <= k < i ==> next[k] == r[k];
      r := next;
      i := i + 1;
    }
  }

  /** The listing covers the whole catalogue: every module is listed, once
      per row. */
  lemma ListingCoversCatalogue(store: ModuleStore, m: ModuleMaster)
    ensures m in store.ListAllModules() <==> m in store.catalog
  {
    assert m in store.ListAllModules() <==> m in multiset(store.ListAllModules());
  }

  /** GetCompanyModules: the company's assignments, in id order, as
      responses. */
  method GetCompanyModules(store: ModuleStore, companyID: nat) returns (r: seq<CompanyModuleResponse>)
    ensures |r| == |store.GetCompanyModules(companyID)|
    ensures forall i :: 0 <= i < |r| ==>
              r[i] == ToCompanyModuleResponse(store.GetCompanyModules(companyID)[i])
              && r[i].companyID == companyID
  {
    var modules := store.GetCompanyModules(companyID);
    r := [];
    var i := 0;
    while i < |modules|
      invariant 0 <= i <= |modules|
      invariant |r| == i
      invariant forall k :: 0 <= k < i ==> r[k] == ToCompanyModuleResponse(modules[k])
    {
      var next := r + [ToCompanyModuleResponse(modules[i])];
      assert forall k :: 0 <= k < i ==> next[k] == r[k];
      r := next;
      i := i + 1;
    }
  }

  /** AssignModuleToCompany's checks before the insert: an unknown module
      is "module not found", a module the company already has is "module
      already assigned to company"; otherwise the catalogue module. */
  function AssignCheck(store: ModuleStore, companyID: nat, moduleID: nat): (r: Result<ModuleMaster>)
    reads store
    ensures store.GetModuleByID(moduleID).Err? ==> r == Err(Fail("module not found"))
    ensures store.GetModuleByID(moduleID).Ok? && store.GetCompanyModule(companyID, moduleID).Ok? ==>
              r == Err(Fail("module already assigned to company"))
    ensures r.Ok? <==> store.GetModuleByID(moduleID).Ok? && store.GetCompanyModule(companyID, moduleID).Err?
    ensures r.Ok? ==> r == store.GetModuleByID(moduleID) && r.value.id == moduleID
  {
    match store.GetModuleByID(moduleID)
    case Err(_) => Err(Fail("module not found"))
    case Ok(m) =>
      if store.GetCompanyModule(companyID, moduleID).Ok? then Err(Fail("module already assigned to company"))
      else Ok(m)
  }

  /** The assignment the service builds from the request: the request's
      module, is_enabled and config for the company. */
  function RequestedAssignment(companyID: nat, req: AssignModuleRequest): (r: CompanyModule)
    ensures r.companyID == companyID && r.moduleID == req.moduleID
    ensures r.isEnabled == req.isEnabled && r.config == req.config && r.master.None?
  {
    CompanyModule(0, companyID, req.moduleID, req.isEnabled, req.config, 0, 0, None)
  }

  /** AssignModuleToCompany as written: the checks, then the insert with
      gorm's defaults, so the assignment is stored and answered enabled
      even when the request asks for it disabled; a failed insert is
      wrapped. Assignment pairs stay unique. */
  method AssignModuleToCompanyAsWritten(store: ModuleStore, companyID: nat, req: AssignModuleRequest, now: int,
                                        fault: Option<string>)
    returns (r: Result<CompanyModuleResponse>)
    requires store.Valid()
    modifies store
    ensures store.Valid()
    ensures store.catalog == old(store.catalog)
    ensures old(AssignCheck(store, companyID, req.moduleID)).Err? ==>
              r == Err(old(AssignCheck(store, companyID, req.moduleID)).error)
    ensures old(AssignCheck(store, companyID, req.moduleID)).Ok? && fault.Some? ==>
              r == Err(Wrap("failed to assign module", Failure(fault.value)))
    ensures r.Err? ==> store.assignments == old(store.assignments) && store.nextID == old(store.nextID)
    ensures r.Ok? <==> old(AssignCheck(store, companyID, req.moduleID)).Ok? && fault.None?
    ensures r.Ok? ==>
              var row := CreateValuesAsWritten(RequestedAssignment(companyID, req))
                           .(id := old(store.nextID), createdAt := now, updatedAt := now);
              && store.assignments == old(store.assignments) + [row]
              && r.value == ToCompanyModuleResponse(row.(master := Some(old(store.GetModuleByID(req.moduleID)).value)))
              && r.value.isEnabled && store.assignments[|old(store.assignments)|].isEnabled
              && r.value.config == req.config && store.assignments[|old(store.assignments)|].config == req.config
    ensures PairsUnique(old(store.assignments)) ==> PairsUnique(store.assignments)
  {
    var mod := AssignCheck(store, companyID, req.moduleID);
    if mod.Err? {
      return Err(mod.error);
    }
    ghost var before := store.assignments;
    var created := store.AssignModule(RequestedAssignment(companyID, req), now, fault);
    if created.Err? {
      return Err(Wrap("failed to assign module", created.error));
    }
    NewPairKeepsPairsUnique(before, Unloaded(created.value), companyID, req.moduleID);
    r := Ok(ToCompanyModuleResponse(created.value.(master := Some(mod.value))));
  }

  /** AssignModuleToCompany, corrected: the same checks and
      error wrapping, with the assignment stored and answered with the
      requested is_enabled and config. Assignment pairs stay unique. */
  method AssignModuleToCompany(store: ModuleStore, companyID: nat, req: AssignModuleRequest, now: int, fault: Option<string>)
    returns (r: Result<CompanyModuleResponse>)
    requires store.Valid()
    modifies store
    ensures store.Valid()
    ensures store.catalog == old(store.catalog)
    ensures old(store.GetModuleByID(req.moduleID)).Err? ==> r == Err(Fail("module not found"))
    ensures old(store.GetModuleByID(req.moduleID)).Ok? && old(store.GetCompanyModule(companyID, req.moduleID)).Ok? ==>
              r == Err(Fail("module already assigned to company"))
    ensures old(AssignCheck(store, companyID, req.moduleID)).Ok? && fault.Some? ==>
              r == Err(Wrap("failed to assign module", Failure(fault.value)))
    ensures r.Err? ==> store.assignments == old(store.assignments) && store.nextID == old(store.nextID)
    ensures r.Ok? <==> old(store.GetModuleByID(req.moduleID)).Ok?
                       && old(store.GetCompanyModule(companyID, req.moduleID)).Err? && fault.None?
    ensures r.Ok? ==>
              var row := RequestedAssignment(companyID, req).(id := old(store.nextID), createdAt := now, updatedAt := now);
              && store.assignments == old(store.assignments) + [row]
              && store.GetCompanyModule(companyID, req.moduleID).Ok?
              && r.value == ToCompanyModuleResponse(row.(master := Some(old(store.GetModuleByID(req.moduleID)).value)))
              && r.value.master == ToModuleResponse(old(store.GetModuleByID(req.moduleID)).value)
              && r.value.companyID == companyID
              && r.value.isEnabled == req.isEnabled && store.assignments[|old(store.assignments)|].isEnabled == req.isEnabled
              && r.value.config == req.config && store.assignments[|old(store.assignments)|].config == req.config
    ensures PairsUnique(old(store.assignments)) ==> PairsUnique(store.assignments)
  {
    var mod := AssignCheck(store, companyID, req.moduleID);
    if mod.Err? {
      return Err(mod.error);
    }
    ghost var before := store.assignments;
    var created := store.AssignModuleAsGiven(RequestedAssignment(companyID, req), now, fault);
    if created.Err? {
      return Err(Wrap("failed to assign module", created.error));
    }
    NewPairKeepsPairsUnique(before, Unloaded(created.value), companyID, req.moduleID);
    r := Ok(ToCompanyModuleResponse(created.value.(master := Some(mod.value))));
  }

  /** The two versions differ only in is_enabled: for a request asking for
      an enabled assignment they agree, and for one asking for a disabled
      assignment the version as written stores it enabled. */
  lemma AssignVersionsDiffer(companyID: nat, req: AssignModuleRequest, id: nat, now: int)
    ensures var asked := RequestedAssignment(companyID, req).(id := id, createdAt := now, updatedAt := now);
      && (req.isEnabled <==> CreateValuesAsWritten(RequestedAssignment(companyID, req)).(id := id, createdAt := now, updatedAt := now) == asked)
  {
  }

  lemma NewPairKeepsPairsUnique(rows: seq<CompanyModule>, cm: CompanyModule, companyID: nat, moduleID: nat)
    requires cm.companyID == companyID && cm.moduleID == moduleID
    requires !exists i :: 0 <= i < |rows| && rows[i].companyID == companyID && rows[i].moduleID == moduleID
    ensures PairsUnique(rows) ==> PairsUnique(rows + [cm])
    ensures (rows + [cm])[|rows|] == cm
  {
    if PairsUnique(rows) {
      AppendKeepsPairsUnique(rows, cm);
    }
  }

  /** RemoveModuleFromCompany: "module not assigned to company" when the
      company does not have the module; otherwise the assignment is deleted
      and every other one stays. */
  method RemoveModuleFromCompany(store: ModuleStore, companyID: nat, moduleID: nat, fault: Option<string>)
    returns (err: Option<Error>)
    requires store.Valid()
    modifies store
    ensures store.Valid()
    ensures store.catalog == old(store.catalog)
    ensures old(store.GetCompanyModule(companyID, moduleID)).Err? ==>
              err == Some(Fail("module not assigned to company")) && store.assignments == old(store.assignments)
    ensures old(store.GetCompanyModule(companyID, moduleID)).Ok? && fault.Some? ==>
              err == Some(Failure(fault.value)) && store.assignments == old(store.assignments)
    ensures err.None? <==> old(store.GetCompanyModule(companyID, moduleID)).Ok? && fault.None?
    ensures err.None? ==>
              && store.GetCompanyModule(companyID, moduleID).Err?
              && store.assignments == Filter(old(store.assignments), NotOfPair(companyID, moduleID))
    ensures PairsUnique(old(store.assignments)) ==> PairsUnique(store.assignments)
  {
    var existing := store.GetCompanyModule(companyID, moduleID);
    if existing.Err? {
      return Some(Fail("module not assigned to company"));
    }
    ghost var before := store.assignments;
    err := store.RemoveModule(companyID, moduleID, fault);
    if PairsUnique(before) {
      FilterKeepsPairsUnique(before, NotOfPair(companyID, moduleID));
    }
    RemovedPairGone(before, companyID, moduleID);
    assert forall i :: 0 <= i < |store.assignments| ==> store.assignments[i] in store.assignments;
  }
}
