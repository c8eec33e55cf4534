/** The two bearer-token middlewares and the accessors handlers use to read
    the identity they store (internal/middleware/auth.go and
    internal/middleware/admin_auth.go).

    The request's Authorization header is a parameter ("" when absent, as
    gin's GetHeader reports it); `parse` is golang-jwt's ParseWithClaims
    with the secret and the clock fixed, mapping the token text to its
    outcome. */
module Middleware {
  import opened Common
  import opened Text
  import opened Jwt
  import opened HttpUtil

  const AuthorizationHeader: string := "Authorization"
  const BearerPrefix: string := "Bearer "
  const UserIDKey: string := "user_id"
  const EmailKey: string := "email"

  /** What the header checks find. */
  datatype HeaderCheck = BearerOf(token: string) | NoHeader | NotBearer | NoToken

  /** The three header checks both middlewares make, in order. */
  function CheckHeader(header: string): (h: HeaderCheck)
    ensures h == NoHeader <==> header == ""
    ensures h == NotBearer <==> header != "" && !HasPrefix(header, BearerPrefix)
    ensures h == NoToken <==> header == BearerPrefix
    ensures h.BearerOf? ==> BearerPrefix + h.token == header && h.token != ""
  {
    if header == "" then NoHeader
    else if !HasPrefix(header, BearerPrefix) then NotBearer
    else
      var token := TrimPrefix(header, BearerPrefix);
      if token == "" then NoToken else BearerOf(token)
  }

  function HeaderMessage(h: HeaderCheck): string
  {
    match h
    case NoHeader => "Authorization header required"
    case NotBearer => "Invalid authorization format"
    case NoToken => "Token is required"
    case BearerOf(_) => ""
  }

  /** A middleware's decision: refuse with a message and an errors payload,
      or admit with the identity the token proves. */
  datatype Gate<I> = Refuse(message: string, errors: Payload) | Admit(identity: I)

  /** Auth's decision: the claims of a valid bearer token; otherwise a
      message naming the failure, with nil errors. */
  function AuthGate(header: string, parse: string -> ParseResult): (g: Gate<Claims>)
    ensures g.Admit? <==> CheckHeader(header).BearerOf? && parse(CheckHeader(header).token).ParseOk?
    ensures g.Admit? ==> g.identity == parse(CheckHeader(header).token).claims
    ensures g.Refuse? ==> g.errors == Nil
    ensures g == Refuse("Token has expired", Nil)
        <==> CheckHeader(header).BearerOf? && parse(CheckHeader(header).token).ParseExpired?
  {
    match CheckHeader(header)
    case BearerOf(token) =>
      (match Validate(parse(token))
       case Ok(claims) => Admit(claims)
       case Err(e) => if e == ErrExpiredToken then Refuse("Token has expired", Nil) else Refuse("Invalid token", Nil))
    case h => Refuse(HeaderMessage(h), Nil)
  }

  /** AdminAuth's decision: the user id of a valid bearer token; otherwise a
      message with the error's text as errors ("" for the header checks). */
  function AdminGate(header: string, parse: string -> ParseResult): (g: Gate<nat>)
    ensures g.Admit? <==> CheckHeader(header).BearerOf? && parse(CheckHeader(header).token).ParseOk?
    ensures g.Admit? ==> g.identity == parse(CheckHeader(header).token).claims.userID
    ensures g.Refuse? ==> g.errors.Str?
    ensures g == Refuse("Invalid or expired token", Str("token has expired"))
        <==> CheckHeader(header).BearerOf? && parse(CheckHeader(header).token).ParseExpired?
  {
    match CheckHeader(header)
    case BearerOf(token) =>
      (match ValidateToken(parse(token))
       case (id, None) => Admit(id)
       case (_, Some(e)) => Refuse("Invalid or expired token", Str(ErrorText(e))))
    case h => Refuse(HeaderMessage(h), Str(""))
  }

  /** The two middlewares admit exactly the same requests, as the same user,
      and refuse a bad header with the same message. */
  lemma GatesAgree(header: string, parse: string -> ParseResult)
    ensures AuthGate(header, parse).Admit? <==> AdminGate(header, parse).Admit?
    ensures AuthGate(header, parse).Admit? ==>
              AuthGate(header, parse).identity.userID == AdminGate(header, parse).identity
    ensures !CheckHeader(header).BearerOf? ==>
              AuthGate(header, parse).message == AdminGate(header, parse).message
  {
  }

  /** GetUserID: the stored user id if it was stored as a uint. */
  function GetUserID(c: GinContext): (r: (nat, bool))
    reads c
    ensures r.1 <==> UserIDKey in c.keys && c.keys[UserIDKey].UintValue?
    ensures r.1 ==> r.0 == c.keys[UserIDKey].n
    ensures !r.1 ==> r.0 == 0
  {
    if UserIDKey in c.keys && c.keys[UserIDKey].UintValue? then (c.keys[UserIDKey].n, true) else (0, false)
  }

  /** GetEmail: the stored email if it was stored as a string. */
  function GetEmail(c: GinContext): (r: (string, bool))
    reads c
    ensures r.1 <==> EmailKey in c.keys && c.keys[EmailKey].StringValue?
    ensures r.1 ==> r.0 == c.keys[EmailKey].s
    ensures !r.1 ==> r.0 == ""
  {
    if EmailKey in c.keys && c.keys[EmailKey].StringValue? then (c.keys[EmailKey].s, true) else ("", false)
  }

  /** Refuse: a 401 with the message, then abort; admit: store the identity
      and run the rest of the chain. Nothing else about the context changes. */
  method Auth(c: GinContext, header: string, parse: string -> ParseResult)
    modifies c
    ensures AuthGate(header, parse).Refuse? ==>
              && c.written == old(c.written) + [Response(StatusUnauthorized, ErrorBody(false, AuthGate(header, parse).message, Nil))]
              && c.aborted && c.keys == old(c.keys) && c.nextCalled == old(c.nextCalled)
    ensures AuthGate(header, parse).Admit? ==>
              && c.keys == old(c.keys)[UserIDKey := UintValue(AuthGate(header, parse).identity.userID)]
                                      [EmailKey := StringValue(AuthGate(header, parse).identity.email)]
              && c.nextCalled && c.written == old(c.written) && c.aborted == old(c.aborted)
    ensures AuthGate(header, parse).Admit? ==>
              GetUserID(c) == (AuthGate(header, parse).identity.userID, true)
              && GetEmail(c) == (AuthGate(header, parse).identity.email, true)
  {
    if header == "" {
      RespondError(c, StatusUnauthorized, "Authorization header required", Nil);
      c.Abort();
      return;
    }
    if !HasPrefix(header, BearerPrefix) {
      RespondError(c, StatusUnauthorized, "Invalid authorization format", Nil);
      c.Abort();
      return;
    }
    var token := TrimPrefix(header, BearerPrefix);
    if token == "" {
      RespondError(c, StatusUnauthorized, "Token is required", Nil);
      c.Abort();
      return;
    }
    var v := Validate(parse(token));
    if v.Err? {
      if v.error == ErrExpiredToken {
        RespondError(c, StatusUnauthorized, "Token has expired", Nil);
      } else {
        RespondError(c, StatusUnauthorized, "Invalid token", Nil);
      }
      c.Abort();
      return;
    }
    c.Set(UserIDKey, UintValue(v.value.userID));
    c.Set(EmailKey, StringValue(v.value.email));
    c.Next();
  }

  /** Like Auth, but the errors payload carries the error's text and the id
      is stored as a uint64, which GetUserID does not read. */
  method AdminAuth(c: GinContext, header: string, parse: string -> ParseResult)
    modifies c
    ensures AdminGate(header, parse).Refuse? ==>
              && c.written == old(c.written) + [Response(StatusUnauthorized, ErrorBody(false, AdminGate(header, parse).message, AdminGate(header, parse).errors))]
              && c.aborted && c.keys == old(c.keys) && c.nextCalled == old(c.nextCalled)
    ensures AdminGate(header, parse).Admit? ==>
              && c.keys == old(c.keys)[UserIDKey := Uint64Value(AdminGate(header, parse).identity)]
              && c.nextCalled && c.written == old(c.written) && c.aborted == old(c.aborted)
    ensures AdminGate(header, parse).Admit? ==> GetUserID(c) == (0, false)
  {
    if header == "" {
      RespondError(c, StatusUnauthorized, "Authorization header required", Str(""));
      c.Abort();
      return;
    }
    if !HasPrefix(header, BearerPrefix) {
      RespondError(c, StatusUnauthorized, "Invalid authorization format", Str(""));
      c.Abort();
      return;
    }
    var token := TrimPrefix(header, BearerPrefix);
    if token == "" {
      RespondError(c, StatusUnauthorized, "Token is required", Str(""));
      c.Abort();
      return;
    }
    var (userID, err) := ValidateToken(parse(token));
    if err.Some? {
      RespondError(c, StatusUnauthorized, "Invalid or expired token", Str(ErrorText(err.value)));
      c.Abort();
      return;
    }
    c.Set(UserIDKey, Uint64Value(userID));
    c.Next();
  }
}
