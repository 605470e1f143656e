/** The request handlers' own logic: the authorizer's token stripping,
    the owner-scoped record lookups, the reconcile step the execute poll
    and the provider webhook share, the execute gate and the webhook guard.
    The provider's answers (esignature details, the execute response) are
    parameters; the tables are sequences of records. */
module App {
  import opened Runtime
  import opened Json
  import Strings
  import opened Models
  import opened Schemas
  import Utils

  // ---------------------------------------------------------------------------
  // demo_auth

  /** demo_auth: a token that starts with "Bearer " keeps what follows it,
      up to any next "Bearer "; any other token is used as it is. */
  function StripBearer(token: string): (r: string)
    ensures !Strings.StartsWith(token, Utils.Bearer) ==> r == token
    ensures Strings.StartsWith(token, Utils.Bearer) ==>
      && Utils.GetToken(Some(token)) == Some(r)
      && Utils.RunsToNextBearer(token[|Utils.Bearer|..], r)
  {
    if Strings.StartsWith(token, Utils.Bearer) then
      assert Strings.OccursAt(token, Utils.Bearer, 0);
      assert Strings.Find(token, Utils.Bearer, 0) == Some(0);
      Utils.SplitSecond(token);
      Strings.Split(token, Utils.Bearer)[1]
    else token
  }

  /** The authorizer and get_token agree on "Bearer <t>". */
  lemma StripBearerOfBearer(t: string)
    requires !Strings.Contains(t, Utils.Bearer)
    ensures StripBearer(Utils.Bearer + t) == t
  {
    Utils.GetTokenOfBearer(t);
    assert (Utils.Bearer + t)[..|Utils.Bearer|] == Utils.Bearer;
  }

  // ---------------------------------------------------------------------------
  // Owner-scoped lookups

  /** `query(Lease).filter(Lease.id == id).filter(Lease.user_id == user_id).first()` */
  function FindOwnedLease(leases: seq<Lease>, id: int, userId: int): (r: Option<Lease>)
    decreases |leases|
    ensures r.Some? ==> r.value in leases && r.value.id == id && r.value.userId == userId
    ensures r.None? <==> forall l :: l in leases ==> !(l.id == id && l.userId == userId)
  {
    if leases == [] then None
    else if leases[0].id == id && leases[0].userId == userId then Some(leases[0])
    else
      var r := FindOwnedLease(leases[1..], id, userId);
      assert forall l :: l in leases ==> l == leases[0] || l in leases[1..];
      r
  }

  /** The leases of one user, in table order. */
  function LeasesOf(leases: seq<Lease>, userId: int): (mine: seq<Lease>)
    decreases |leases|
  {
    if leases == [] then []
    else (if leases[0].userId == userId then [leases[0]] else []) + LeasesOf(leases[1..], userId)
  }

  /** A lookup sees only the principal's own leases: other users' records
      can neither be returned nor change which record is returned. */
  lemma {:induction false} FindOwnedLeaseSeesOnlyOwn(leases: seq<Lease>, id: int, userId: int)
    ensures FindOwnedLease(leases, id, userId) == FindOwnedLease(LeasesOf(leases, userId), id, userId)
    decreases |leases|
  {
    if leases != [] {
      var rest := leases[1..];
      FindOwnedLeaseSeesOnlyOwn(rest, id, userId);
      var mine := LeasesOf(leases, userId);
      if leases[0].userId == userId {
        assert mine == [leases[0]] + LeasesOf(rest, userId);
        assert mine[0] == leases[0] && mine[1..] == LeasesOf(rest, userId);
      } else {
        assert mine == LeasesOf(rest, userId);
        assert FindOwnedLease(leases, id, userId) == FindOwnedLease(rest, id, userId);
      }
    }
  }

  /** `query(LeaseEsignature).join("lease").filter(LeaseEsignature.id == id)
      .filter(Lease.user_id == user_id).first()`, with the joined lease. */
  function FindOwnedEsignature(esignatures: seq<LeaseEsignature>, leases: seq<Lease>, id: int, userId: int)
    : (r: Option<(LeaseEsignature, Lease)>)
    decreases |esignatures|
    ensures r.Some? ==>
      && r.value.0 in esignatures && r.value.0.id == id
      && r.value.1 in leases && r.value.1.id == r.value.0.leaseId && r.value.1.userId == userId
    ensures r.None? <==>
      forall e, l :: e in esignatures && l in leases && e.id == id && l.id == e.leaseId ==> l.userId != userId
  {
    if esignatures == [] then None
    else
      var e := esignatures[0];
      var lease := if e.id == id then FindOwnedLease(leases, e.leaseId, userId) else None;
      if lease.Some? then Some((e, lease.value))
      else
        var r := FindOwnedEsignature(esignatures[1..], leases, id, userId);
        assert forall x :: x in esignatures ==> x == e || x in esignatures[1..];
        r
  }

  /** SQLAlchemy's `column == value` for the nullable `bluemoon_id` column:
      comparing with `None` compiles to `IS NULL`, any other value to `=`. */
  predicate ColumnEquals(column: Option<int>, value: Json) {
    match value
    case Null => column.None?
    case Num(n) => column == Some(n)
    case _ => false
  }

  /** `query(LeaseEsignature).filter(LeaseEsignature.bluemoon_id == id).first()` */
  function FindByBluemoonId(esignatures: seq<LeaseEsignature>, id: Json): (r: Option<LeaseEsignature>)
    decreases |esignatures|
    ensures r.Some? ==> r.value in esignatures && ColumnEquals(r.value.bluemoonId, id)
    ensures r.None? <==> forall e :: e in esignatures ==> !ColumnEquals(e.bluemoonId, id)
  {
    if esignatures == [] then None
    else if ColumnEquals(esignatures[0].bluemoonId, id) then Some(esignatures[0])
    else
      var r := FindByBluemoonId(esignatures[1..], id);
      assert forall x :: x in esignatures ==> x == esignatures[0] || x in esignatures[1..];
      r
  }

  // ---------------------------------------------------------------------------
  // The reconcile step

  /** Where a provider payload keeps its signer records. */
  const SignersPath: seq<string> := ["esign", "data", "signers", "data"]

  /** The status a reconcile step leaves from `status` and `payload`, or the
      exception that escapes it: a KeyError, from the path lookup or from
      transition_status, is caught and keeps the status. */
  function Reconciled(status: StatusEnum, payload: Json): (r: Result<StatusEnum>)
    ensures r.Raise? ==> r.error == TypeError
  {
    GetPathOutcome(payload, SignersPath);
    match GetPath(payload, SignersPath)
    case Raise(e) => if e == KeyError then Ok(status) else Raise(e)
    case Ok(signersData) =>
      match Derivation(signersData)
      case Ok(s) => Ok(s)
      case Raise(e) => if e == KeyError then Ok(status) else Raise(e)
  }

  /** The shared reconcile step: store the payload, then re-derive the status
      from the signer records if they can be read. */
  method Reconcile(e: LeaseEsignature, payload: Json) returns (escaped: Option<Exception>)
    modifies e
    ensures e.data == payload
    ensures escaped.None? <==> Reconciled(old(e.status), payload).Ok?
    ensures escaped.None? ==> e.status == Reconciled(old(e.status), payload).value
    ensures escaped.Some? ==> escaped.value == Reconciled(old(e.status), payload).error && e.status == old(e.status)
  {
    e.data := payload;
    var signersData := GetPath(payload, SignersPath);
    if signersData.Raise? {
      if signersData.error == KeyError {
        return None;
      }
      return Some(signersData.error);
    }
    var transitioned := e.TransitionStatus(signersData.value);
    if transitioned.Raise? {
      if transitioned.error == KeyError {
        return None;
      }
      return Some(transitioned.error);
    }
    return None;
  }

  /** A missing key anywhere on the signer path keeps the status. */
  lemma MissingKeyKeepsStatus(status: StatusEnum, payload: Json)
    requires GetPath(payload, SignersPath) == Raise(KeyError)
    ensures Reconciled(status, payload) == Ok(status)
  {
  }

  /** When the signer records are readable, the new status is their
      derivation, whatever the stored status was. */
  lemma ReconcileForgetsPriorStatus(s: StatusEnum, t: StatusEnum, payload: Json)
    requires HasPath(payload, SignersPath)
    requires Derivation(GetPath(payload, SignersPath).value).Ok?
    ensures Reconciled(s, payload) == Reconciled(t, payload) == Derivation(GetPath(payload, SignersPath).value)
  {
    GetPathOutcome(payload, SignersPath);
  }

  /** Reconciling again with the same payload changes nothing. */
  lemma ReconcileIdempotent(s: StatusEnum, payload: Json)
    requires Reconciled(s, payload).Ok?
    ensures Reconciled(Reconciled(s, payload).value, payload) == Reconciled(s, payload)
  {
  }

  /** A payload whose signer records sit at the expected path. */
  function Payload(signers: seq<Json>): Json {
    Obj(map["esign" := Obj(map["data" := Obj(map["signers" := Obj(map["data" := Arr(signers)])])])])
  }

  /** The payload carries its signer records where the reconcile step looks. */
  lemma PayloadSigners(signers: seq<Json>)
    ensures GetPath(Payload(signers), SignersPath) == Ok(Arr(signers))
  {
    var inner := Obj(map["data" := Arr(signers)]);
    var mid := Obj(map["signers" := inner]);
    var outer := Obj(map["data" := mid]);
    assert SignersPath[1..] == ["data", "signers", "data"];
    assert SignersPath[1..][1..] == ["signers", "data"];
    assert SignersPath[1..][1..][1..] == ["data"];
    assert GetPath(inner, ["data"]) == Ok(Arr(signers)) by { assert ["data"][1..] == []; }
    assert GetPath(mid, ["signers", "data"]) == GetPath(inner, ["data"]);
    assert GetPath(outer, ["data", "signers", "data"]) == GetPath(mid, ["signers", "data"]);
  }

  function SignerRecord(identifier: string, completed: bool): Json {
    Obj(map["identifier" := Str(identifier), "completed" := Bool(completed)])
  }

  /** The status can move backward: a signed record that receives a payload
      with a resident who has not completed becomes processing again. */
  lemma StatusCanMoveBackward()
    ensures Reconciled(Signed, Payload([SignerRecord("owner", false), SignerRecord("resident1", false)]))
      == Ok(Processing)
  {
    var entries := [SignerRecord("owner", false), SignerRecord("resident1", false)];
    var owner := Signer(Str("owner"), Bool(false));
    var resident := Signer(Str("resident1"), Bool(false));
    BackwardEntriesRead(entries, owner, resident);
    BackwardCount(owner, resident);
    assert Derivation(Arr(entries)) == Ok(Processing);
    PayloadSigners(entries);
  }

  lemma BackwardEntriesRead(entries: seq<Json>, owner: Signer, resident: Signer)
    requires entries == [SignerRecord("owner", false), SignerRecord("resident1", false)]
    requires owner == Signer(Str("owner"), Bool(false)) && resident == Signer(Str("resident1"), Bool(false))
    ensures ParseSigners(entries) == Ok([owner, resident])
  {
    assert ParseSigner(entries[0]) == Ok(owner);
    assert ParseSigner(entries[1]) == Ok(resident);
    assert entries[..0] == [];
    ParseSignersStep(entries, 0, [], owner);
    ParseSignersStep(entries, 1, [owner], resident);
    assert entries[..2] == entries;
    assert [] + [owner] == [owner] && [owner] + [resident] == [owner, resident];
  }

  lemma BackwardCount(owner: Signer, resident: Signer)
    requires owner == Signer(Str("owner"), Bool(false)) && resident == Signer(Str("resident1"), Bool(false))
    ensures Derive([owner, resident]) == Processing
  {
    assert owner.IsOwner() && !owner.HasCompleted();
    assert !resident.IsOwner() && !resident.HasCompleted();
    assert [owner, resident][..1] == [owner];
    assert [owner][..0] == [];
    assert Count([owner]) == Tally(0, 0, false);
    assert Count([owner, resident]) == Tally(1, 0, false);
  }

  // ---------------------------------------------------------------------------
  // Handlers

  /** A handler's outcome: a response, or an exception that escapes it. */
  datatype Reply = Reply(code: int, body: Json) | Unhandled(error: Exception)

  /** The provider call `execute_lease(bm_id, data)`. */
  datatype ExecuteCall = ExecuteCall(bluemoonId: Option<int>, data: ExecuteData)

  const NotFound := Reply(404, Obj(map["message" := Str("Not Found")]))
  const ApiError := Reply(500, Obj(map["message" := Str("Unable to retrieve api data.")]))
  const NotSigned := Reply(404, Obj(map[
    "success" := Bool(false),
    "errors" := Arr([Obj(map["status" := Str("Lease has not been signed by all residents.")])])]))
  const BadRequest := Reply(405, Obj(map["message" := Str("Bad Request")]))

  /** `err.messages`: each field's list of messages. */
  function ErrorsJson(errors: map<string, string>): Json {
    Obj(map k | k in errors :: Arr([Str(errors[k])]))
  }

  /** `"executed" in response and response["executed"]` */
  function ExecuteSuccess(response: Json): (r: Result<Json>)
    ensures r.Ok? ==> (Truthy(r.value) <==> response.Obj? && "executed" in response.fields && Truthy(response.fields["executed"]))
    ensures response.Obj? ==> r.Ok?
  {
    match Contains(response, "executed")
    case Raise(e) => Raise(e)
    case Ok(present) => if !present then Ok(Bool(false)) else Get(response, "executed")
  }

  /** lease_execute: validate the body, find the principal's esignature,
      refresh it from the provider's details and reconcile its status, then
      call execute only if the status is signed. `details` is the answer of
      `esignature_details(bm_id=<the found esignature's bluemoonId>)`, the
      provider's details of that one record; `executeResponse` is that of
      `execute_lease`. An
      exception before `session.commit()` leaves every record as it was:
      the request's session is dropped uncommitted. */
  method LeaseExecute(id: int, userId: int, body: Json, esignatures: seq<LeaseEsignature>, leases: seq<Lease>,
                      details: Json, executeResponse: Json)
    returns (reply: Reply, call: Option<ExecuteCall>)
    modifies set e | e in esignatures
    ensures var found := FindOwnedEsignature(esignatures, leases, id, userId);
      forall e :: e in esignatures && (found.None? || e != found.value.0) ==> e.status == old(e.status) && e.data == old(e.data)
    ensures var found := FindOwnedEsignature(esignatures, leases, id, userId);
      forall e :: e in esignatures && (e.status != old(e.status) || e.data != old(e.data)) ==>
        && LoadExecute(body).Valid? && found.Some? && e == found.value.0
        && Truthy(details) && Get(details, "data").Ok?
        && Reconciled(old(e.status), Get(details, "data").value).Ok?
    ensures reply.Unhandled? && call.None? ==>
      forall e :: e in esignatures ==> e.status == old(e.status) && e.data == old(e.data)
    ensures LoadExecute(body).Invalid? ==>
      reply == Reply(200, Obj(map["success" := Bool(false), "errors" := ErrorsJson(LoadExecute(body).errors)])) && call.None?
    ensures LoadExecute(body).Valid? && FindOwnedEsignature(esignatures, leases, id, userId).None? ==>
      reply == NotFound && call.None?
    ensures LoadExecute(body).Valid? && FindOwnedEsignature(esignatures, leases, id, userId).Some? && !Truthy(details) ==>
      reply == ApiError && call.None?
    ensures var found := FindOwnedEsignature(esignatures, leases, id, userId);
      LoadExecute(body).Valid? && found.Some? && Truthy(details) && Get(details, "data").Raise? ==>
        reply == Unhandled(Get(details, "data").error) && call.None?
    ensures var found := FindOwnedEsignature(esignatures, leases, id, userId);
      LoadExecute(body).Valid? && found.Some? && Truthy(details) && Get(details, "data").Ok? ==>
        var result := Reconciled(old(found.value.0.status), Get(details, "data").value);
        && (result.Raise? ==> reply == Unhandled(result.error) && call.None?)
        && (result.Ok? ==> found.value.0.data == Get(details, "data").value && found.value.0.status == result.value)
        && (result.Ok? && result.value != Signed ==> reply == NotSigned && call.None?)
    ensures call.Some? <==>
      var found := FindOwnedEsignature(esignatures, leases, id, userId);
      && LoadExecute(body).Valid? && found.Some? && Truthy(details) && Get(details, "data").Ok?
      && Reconciled(old(found.value.0.status), Get(details, "data").value) == Ok(Signed)
    ensures call.Some? ==>
      && call.value == ExecuteCall(FindOwnedEsignature(esignatures, leases, id, userId).value.1.bluemoonId, LoadExecute(body).data)
      && reply == match ExecuteSuccess(executeResponse)
                  case Ok(success) => Reply(200, Obj(map["success" := success]))
                  case Raise(e) => Unhandled(e)
  {
    var loaded := LoadExecute(body);
    if loaded.Invalid? {
      return Reply(200, Obj(map["success" := Bool(false), "errors" := ErrorsJson(loaded.errors)])), None;
    }
    var found := FindOwnedEsignature(esignatures, leases, id, userId);
    if found.None? {
      return NotFound, None;
    }
    var (esignature, lease) := found.value;
    if !Truthy(details) {
      return ApiError, None;
    }
    var storageData := Get(details, "data");
    if storageData.Raise? {
      return Unhandled(storageData.error), None;
    }
    var stored := esignature.data;
    var escaped := Reconcile(esignature, storageData.value);
    if escaped.Some? {
      esignature.data := stored;
      return Unhandled(escaped.value), None;
    }
    if esignature.status != Signed {
      return NotSigned, None;
    }
    call := Some(ExecuteCall(lease.bluemoonId, loaded.data));
    var success := ExecuteSuccess(executeResponse);
    if success.Raise? {
      return Unhandled(success.error), call;
    }
    reply := Reply(200, Obj(map["success" := success.value]));
  }

  /** notifications, the provider webhook: a body without `data` is refused
      with 405 and changes nothing; otherwise the esignature named by
      `data.id` stores the payload and reconciles its status. An unknown id
      dereferences None, which escapes as AttributeError; any exception
      escapes before `session.commit()` and leaves every record as it was. */
  method Notifications(body: Json, esignatures: seq<LeaseEsignature>) returns (reply: Reply)
    modifies set e | e in esignatures
    ensures Contains(body, "data") == Ok(false) ==> reply == BadRequest
    ensures Contains(body, "data").Raise? ==> reply == Unhandled(Contains(body, "data").error)
    ensures Contains(body, "data") == Ok(true) && Get(body, "data").Raise? ==> reply == Unhandled(Get(body, "data").error)
    ensures Contains(body, "data") == Ok(true) && Get(body, "data").Ok? ==>
      var data := Get(body, "data").value;
      && (Get(data, "id").Raise? ==> reply == Unhandled(Get(data, "id").error))
      && (Get(data, "id").Ok? && FindByBluemoonId(esignatures, Get(data, "id").value).None? ==>
            reply == Unhandled(AttributeError))
      && (Get(data, "id").Ok? && FindByBluemoonId(esignatures, Get(data, "id").value).Some? ==>
            var target := FindByBluemoonId(esignatures, Get(data, "id").value).value;
            var result := Reconciled(old(target.status), data);
            && (result.Raise? ==> reply == Unhandled(result.error))
            && (result.Ok? ==>
                  reply == Reply(200, Obj(map["success" := Bool(true)]))
                  && target.data == data && target.status == result.value))
    ensures reply.Unhandled? || reply == BadRequest ==>
      forall e :: e in esignatures ==> e.status == old(e.status) && e.data == old(e.data)
    ensures forall e :: e in esignatures && (e.status != old(e.status) || e.data != old(e.data)) ==>
      && Contains(body, "data") == Ok(true) && Get(body, "data").Ok? && Get(Get(body, "data").value, "id").Ok?
      && FindByBluemoonId(esignatures, Get(Get(body, "data").value, "id").value) == Some(e)
  {
    var hasData := Contains(body, "data");
    if hasData.Raise? {
      return Unhandled(hasData.error);
    }
    if !hasData.value {
      return BadRequest;
    }
    var data := Get(body, "data");
    if data.Raise? {
      return Unhandled(data.error);
    }
    var bluemoonId := Get(data.value, "id");
    if bluemoonId.Raise? {
      return Unhandled(bluemoonId.error);
    }
    var target := FindByBluemoonId(esignatures, bluemoonId.value);
    if target.None? {
      return Unhandled(AttributeError);
    }
    var stored := target.value.data;
    var escaped := Reconcile(target.value, data.value);
    if escaped.Some? {
      target.value.data := stored;
      return Unhandled(escaped.value);
    }
    return Reply(200, Obj(map["success" := Bool(true)]));
  }
}
