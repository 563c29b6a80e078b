/**
 Capability grants: a table with one row per principal, capability and client scope, changed in place
 by grants and revocations. The theorem reads every row off the log of calls.
 */
module Grants {
  import opened Text

  datatype Key = Key(principal: string, capability: string, scope: string)
  datatype Row = Row(active: bool, grantedBy: string, updatedBy: string, createdAt: string, updatedAt: string)
  datatype Error =
    | BadPrincipal | MalformedCapability | UnsupportedCapability | BadClient | BadActor
    | UnknownPrincipal | InactivePrincipal | NeedsAdmin | UnknownClient | NoClientRole | NoSuchGrant
  datatype Result<T> = Ok(value: T) | Err(error: Error)

  /** The identity tables at the time of a call; `clients` are those not in quarantine. */
  datatype Identities = Identities(
    principals: map<string, bool>, admins: set<string>, clients: set<string>, roles: set<(string, string)>)

  datatype Call = Call(
    grants: bool, principal: string, capability: string, client: Option<string>, actor: string,
    now: string, identities: Identities)

  datatype Grant = Grant(principal: string, capability: string, client: Option<string>, row: Row)

  // ----- normalisation

  function ShortId(value: string, error: Error): Result<string> {
    var id := Strip(value);
    if id == [] || |id| > 128 then Err(error) else Ok(id)
  }

  predicate WellFormed(key: string) {
    && 0 < |key| <= 64 && 'a' <= key[0] <= 'z'
    && forall i :: 0 <= i < |key| ==> 'a' <= key[i] <= 'z' || '0' <= key[i] <= '9' || key[i] in "_.-"
  }

  function CapabilityKey(value: string): Result<string> {
    var key := Lower(Strip(value));
    if !WellFormed(key) then Err(MalformedCapability)
    else if key != "microsoft_admin" then Err(UnsupportedCapability)
    else Ok(key)
  }

  function ClientId(value: Option<string>): (r: Result<Option<string>>)
    ensures r.Ok? ==> r.value != Some("") && (r.value.None? <==> value.None?)
  {
    if value.None? then Ok(None)
    else if Strip(value.value) == "__quarantine__" then Err(BadClient)
    else match ShortId(value.value, BadClient)
      case Ok(id) => Ok(Some(id))
      case Err(e) => Err(e)
  }

  function Scope(client: Option<string>): string {
    if client.Some? then client.value else ""
  }

  function ScopeToClient(scope: string): Option<string> {
    if scope == "" then None else Some(scope)
  }

  /** Scopes and clients are in bijection, the empty scope standing for every client. */
  lemma ScopesAreClients(scope: string, client: Option<string>)
    ensures Scope(ScopeToClient(scope)) == scope
    ensures ScopeToClient(scope) == client <==> client != Some("") && scope == Scope(client)
  {}

  datatype Request = Request(key: Key, client: Option<string>, actor: string)

  function Normalized(c: Call): (r: Result<Request>)
    ensures r.Ok? ==> r.value.key.scope == Scope(r.value.client) && r.value.client != Some("")
  {
    var principal := ShortId(c.principal, BadPrincipal);
    if principal.Err? then Err(principal.error) else
    var capability := CapabilityKey(c.capability);
    if capability.Err? then Err(capability.error) else
    var client := ClientId(c.client);
    if client.Err? then Err(client.error) else
    var actor := ShortId(c.actor, BadActor);
    if actor.Err? then Err(actor.error) else
    Ok(Request(Key(principal.value, capability.value, Scope(client.value)), client.value, actor.value))
  }

  /** `_validate_grant_target` */
  function TargetError(ids: Identities, principal: string, client: Option<string>): Option<Error> {
    if principal !in ids.principals then Some(UnknownPrincipal)
    else if !ids.principals[principal] then Some(InactivePrincipal)
    else if client.None? then (if principal in ids.admins then None else Some(NeedsAdmin))
    else if client.value !in ids.clients then Some(UnknownClient)
    else if (principal, client.value) !in ids.roles && principal !in ids.admins then Some(NoClientRole)
    else None
  }

  // ----- the table

  function ReadGrant(rows: map<Key, Row>, key: Key): Grant
    requires key in rows
  {
    Grant(key.principal, key.capability, ScopeToClient(key.scope), rows[key])
  }

  /** One call: the error it raises, and the rows after it. */
  function Outcome(rows: map<Key, Row>, c: Call): Option<Error> {
    var r := Normalized(c);
    if r.Err? then Some(r.error)
    else if c.grants then TargetError(c.identities, r.value.key.principal, r.value.client)
    else if r.value.key in rows then None else Some(NoSuchGrant)
  }

  function Apply(rows: map<Key, Row>, c: Call): map<Key, Row> {
    if Outcome(rows, c).Some? then rows
    else
      var Request(key, _, actor) := Normalized(c).value;
      if key in rows then rows[key := rows[key].(active := c.grants, updatedBy := actor, updatedAt := c.now)]
      else rows[key := Row(true, actor, actor, c.now, c.now)]
  }

  class GrantTable {
    var rows: map<Key, Row>

    constructor ()
      ensures rows == map[]
    {
      rows := map[];
    }

    /** `grant_capability`: insert, or on conflict update three columns. */
    method GrantCapability(c: Call) returns (r: Result<Grant>)
      requires c.grants
      modifies this
      ensures rows == Apply(old(rows), c)
      ensures r.Err? <==> Outcome(old(rows), c).Some?
      ensures r.Err? ==> Outcome(old(rows), c) == Some(r.error) && rows == old(rows)
      ensures r.Ok? ==> var q := Normalized(c).value;
        && q.key in rows && r.value == Grant(q.key.principal, q.key.capability, q.client, rows[q.key])
        && rows[q.key].active && rows - {q.key} == old(rows) - {q.key}
    {
      var request := Normalized(c);
      if request.Err? { return Err(request.error); }
      var Request(key, client, actor) := request.value;
      var error := TargetError(c.identities, key.principal, client);
      if error.Some? { return Err(error.value); }
      if key in rows {
        var row := rows[key];
        rows := rows[key := Row(true, row.grantedBy, actor, row.createdAt, c.now)];
      } else {
        rows := rows[key := Row(true, actor, actor, c.now, c.now)];
      }
      return Ok(ReadGrant(rows, key));
    }

    /** `revoke_capability`: the update must have hit one row. */
    method RevokeCapability(c: Call) returns (r: Result<Grant>)
      requires !c.grants
      modifies this
      ensures rows == Apply(old(rows), c)
      ensures r.Err? <==> Outcome(old(rows), c).Some?
      ensures r.Err? ==> Outcome(old(rows), c) == Some(r.error) && rows == old(rows)
      ensures r.Ok? ==> var q := Normalized(c).value;
        && q.key in rows && r.value == Grant(q.key.principal, q.key.capability, q.client, rows[q.key])
        && !rows[q.key].active && rows - {q.key} == old(rows) - {q.key}
    {
      var request := Normalized(c);
      if request.Err? { return Err(request.error); }
      var Request(key, client, actor) := request.value;
      if key !in rows { return Err(NoSuchGrant); }
      var row := rows[key];
      rows := rows[key := Row(false, row.grantedBy, actor, row.createdAt, c.now)];
      return Ok(ReadGrant(rows, key));
    }
  }

  // ----- the log

  function Run(calls: seq<Call>): map<Key, Row> {
    if calls == [] then map[] else Apply(Run(calls[..|calls| - 1]), calls[|calls| - 1])
  }

  /** A grant for `key` that its identities allow. */
  predicate GrantsKey(c: Call, key: Key) {
    && c.grants && Normalized(c).Ok? && Normalized(c).value.key == key
    && TargetError(c.identities, key.principal, Normalized(c).value.client).None?
  }

  predicate RevokesKey(c: Call, key: Key) {
    !c.grants && Normalized(c).Ok? && Normalized(c).value.key == key
  }

  predicate Touches(c: Call, key: Key) { GrantsKey(c, key) || RevokesKey(c, key) }

  predicate FirstGrant(calls: seq<Call>, key: Key, i: nat) {
    i < |calls| && GrantsKey(calls[i], key) && forall k :: 0 <= k < i ==> !GrantsKey(calls[k], key)
  }

  predicate LastTouch(calls: seq<Call>, key: Key, j: nat) {
    j < |calls| && Touches(calls[j], key) && forall k :: j < k < |calls| ==> !Touches(calls[k], key)
  }

  /** Made by the first grant, and as the last grant or revocation of the key left it. */
  predicate Recorded(calls: seq<Call>, key: Key, row: Row, i: nat, j: nat) {
    && FirstGrant(calls, key, i) && LastTouch(calls, key, j) && i <= j
    && row == Row(calls[j].grants, Normalized(calls[i]).value.actor, Normalized(calls[j]).value.actor,
                  calls[i].now, calls[j].now)
  }

  ghost predicate Told(calls: seq<Call>, key: Key, rows: map<Key, Row>) {
    if key in rows then exists i, j :: Recorded(calls, key, rows[key], i, j)
    else forall k :: 0 <= k < |calls| ==> !GrantsKey(calls[k], key)
  }

  lemma OtherRow(rows: map<Key, Row>, c: Call, key: Key)
    requires !Touches(c, key)
    ensures key in Apply(rows, c) <==> key in rows
    ensures key in rows ==> Apply(rows, c)[key] == rows[key]
  {}

  lemma UntouchedRow(calls: seq<Call>, c: Call, key: Key, rows: map<Key, Row>, after: map<Key, Row>)
    requires Told(calls, key, rows) && !Touches(c, key)
    requires (key in after <==> key in rows) && (key in rows ==> after[key] == rows[key])
    ensures Told(calls + [c], key, after)
  {
    var longer := calls + [c];
    if key in rows {
      var i, j :| Recorded(calls, key, rows[key], i, j);
      assert Recorded(longer, key, rows[key], i, j);
    }
  }

  lemma TouchedRow(calls: seq<Call>, c: Call, key: Key, rows: map<Key, Row>)
    requires Told(calls, key, rows) && Touches(c, key)
    ensures Told(calls + [c], key, Apply(rows, c))
  {
    var longer, after, j := calls + [c], Apply(rows, c), |calls|;
    if key in rows {
      var i, old_j :| Recorded(calls, key, rows[key], i, old_j);
      assert FirstGrant(longer, key, i) && LastTouch(longer, key, j);
      assert Recorded(longer, key, after[key], i, j);
    } else if c.grants {
      assert FirstGrant(longer, key, j) && LastTouch(longer, key, j);
      assert Recorded(longer, key, after[key], j, j);
    }
  }

  lemma NextRow(calls: seq<Call>, c: Call, key: Key, rows: map<Key, Row>)
    requires Told(calls, key, rows)
    ensures Told(calls + [c], key, Apply(rows, c))
  {
    if Touches(c, key) {
      TouchedRow(calls, c, key, rows);
    } else {
      OtherRow(rows, c, key);
      UntouchedRow(calls, c, key, rows, Apply(rows, c));
    }
  }

  lemma Last(calls: seq<Call>) returns (earlier: seq<Call>, last: Call)
    requires calls != []
    ensures calls == earlier + [last] && Run(calls) == Apply(Run(earlier), last)
  {
    earlier, last := calls[..|calls| - 1], calls[|calls| - 1];
  }

  /** After any calls, a key has a row iff it was once granted, and the log tells every column of it. */
  lemma {:induction false} RowsAreTold(calls: seq<Call>, key: Key)
    ensures Told(calls, key, Run(calls))
  {
    if calls != [] {
      var earlier, last := Last(calls);
      RowsAreTold(earlier, key);
      NextRow(earlier, last, key, Run(earlier));
    }
  }

  /** `active_capability_grants`, for a principal id that has been normalised. */
  function ActiveGrants(rows: map<Key, Row>, principal: string): set<(string, Option<string>)> {
    set key | key in rows && key.principal == principal && rows[key].active :: (key.capability, ScopeToClient(key.scope))
  }

  /** A key was granted by some call and its most recent successful call was a grant. */
  ghost predicate InForce(calls: seq<Call>, key: Key) {
    exists j: nat :: LastTouch(calls, key, j) && calls[j].grants
  }

  lemma RecordedInForce(calls: seq<Call>, key: Key, row: Row, i: nat, j: nat)
    requires Recorded(calls, key, row, i, j)
    ensures row.active <==> InForce(calls, key)
  {
    if InForce(calls, key) {
      var k: nat :| LastTouch(calls, key, k) && calls[k].grants;
      assert k == j;
    }
  }

  lemma ActiveIffInForce(calls: seq<Call>, key: Key)
    ensures key in Run(calls) && Run(calls)[key].active <==> InForce(calls, key)
  {
    var rows := Run(calls);
    RowsAreTold(calls, key);
    if key in rows {
      var i, j :| Recorded(calls, key, rows[key], i, j);
      RecordedInForce(calls, key, rows[key], i, j);
    }
  }

  /** The active grants are exactly those whose last grant-or-revoke call was a grant. */
  lemma ActiveGrantsExactly(calls: seq<Call>, principal: string, capability: string, client: Option<string>)
    ensures (capability, client) in ActiveGrants(Run(calls), principal) <==>
      client != Some("") && InForce(calls, Key(principal, capability, Scope(client)))
  {
    var key := Key(principal, capability, Scope(client));
    ActiveIffInForce(calls, key);
    if (capability, client) in ActiveGrants(Run(calls), principal) {
      var other :| other in Run(calls) && other.principal == principal && Run(calls)[other].active
        && (other.capability, ScopeToClient(other.scope)) == (capability, client);
      ScopesAreClients(other.scope, client);
      assert other == key;
    }
    if client != Some("") && key in Run(calls) && Run(calls)[key].active {
      assert ScopeToClient(key.scope) == client;
    }
  }

  // ----- what a call needs

  predicate ProperId(value: string) {
    1 <= |Strip(value)| <= 128
  }

  lemma AdminKeyIsWellFormed()
    ensures WellFormed("microsoft_admin")
  {}

  /** A request is well formed exactly when its ids are, it names the one capability and no quarantined client. */
  lemma NormalizedExactly(c: Call)
    ensures Normalized(c).Ok? <==>
      && ProperId(c.principal) && ProperId(c.actor) && Lower(Strip(c.capability)) == "microsoft_admin"
      && (c.client.Some? ==> ProperId(c.client.value) && Strip(c.client.value) != "__quarantine__")
    ensures Normalized(c).Ok? ==>
      Normalized(c).value == Request(
        Key(Strip(c.principal), "microsoft_admin", if c.client.Some? then Strip(c.client.value) else ""),
        if c.client.Some? then Some(Strip(c.client.value)) else None, Strip(c.actor))
  {
    AdminKeyIsWellFormed();
  }

  /** Who may be granted what: active principals, for every client only admins, for one client admins and its role holders. */
  predicate Entitled(ids: Identities, principal: string, client: Option<string>) {
    && principal in ids.principals && ids.principals[principal]
    && match client
       case None => principal in ids.admins
       case Some(c) => c in ids.clients && ((principal, c) in ids.roles || principal in ids.admins)
  }

  lemma TargetExactly(ids: Identities, principal: string, client: Option<string>)
    ensures TargetError(ids, principal, client).None? <==> Entitled(ids, principal, client)
  {}

  /** Every active grant was made by a call whose principal was entitled to it at the time. */
  lemma GrantedWithTitle(calls: seq<Call>, principal: string, capability: string, client: Option<string>) returns (j: nat)
    requires (capability, client) in ActiveGrants(Run(calls), principal)
    ensures j < |calls| && calls[j].grants && capability == "microsoft_admin"
    ensures Strip(calls[j].principal) == principal && Entitled(calls[j].identities, principal, client)
  {
    ActiveGrantsExactly(calls, principal, capability, client);
    var key := Key(principal, capability, Scope(client));
    j :| LastTouch(calls, key, j) && calls[j].grants;
    NormalizedExactly(calls[j]);
    TargetExactly(calls[j].identities, principal, Normalized(calls[j]).value.client);
    ScopesAreClients(key.scope, client);
    ScopesAreClients(key.scope, Normalized(calls[j]).value.client);
  }

  /** Why a grant is refused: the first of these that applies. */
  lemma RefusalReasons(ids: Identities, principal: string, client: Option<string>)
    ensures var error := TargetError(ids, principal, client);
      && (error == Some(UnknownPrincipal) <==> principal !in ids.principals)
      && (error == Some(InactivePrincipal) <==> principal in ids.principals && !ids.principals[principal])
      && (error == Some(NeedsAdmin) <==>
            principal in ids.principals && ids.principals[principal] && client.None? && principal !in ids.admins)
      && (error == Some(UnknownClient) <==>
            principal in ids.principals && ids.principals[principal] && client.Some? && client.value !in ids.clients)
  {}
}
