/** The persisted records of the leasing backend and the derivation of an
    e-signature's status from the provider's list of signers. */
module Models {
  import opened Runtime
  import opened Json

  // ---------------------------------------------------------------------------
  // Status

  /** The lifecycle of a lease e-signature. */
  datatype StatusEnum = Pending | Processing | Signed | Executed {
    /** The integer the enum assigns to the member. */
    function Value(): (v: int)
      ensures 1 <= v <= 4
    {
      match this
      case Pending => 1
      case Processing => 2
      case Signed => 3
      case Executed => 4
    }
  }

  /** `StatusEnum(v)`: the member whose value is `v`; ValueError for any other integer. */
  function StatusOfValue(v: int): (r: Result<StatusEnum>)
    ensures r.Ok? <==> 1 <= v <= 4
    ensures r.Ok? ==> r.value.Value() == v
    ensures r.Raise? ==> r.error == ValueError
  {
    if v == 1 then Ok(Pending)
    else if v == 2 then Ok(Processing)
    else if v == 3 then Ok(Signed)
    else if v == 4 then Ok(Executed)
    else Raise(ValueError)
  }

  /** Each member has its own value and is recovered from it. */
  lemma StatusValueRoundTrip(s: StatusEnum, t: StatusEnum)
    ensures StatusOfValue(s.Value()) == Ok(s)
    ensures s.Value() == t.Value() ==> s == t
  {
  }

  // ---------------------------------------------------------------------------
  // Records

  /** A row of the `leases` table. */
  datatype Lease = Lease(id: int, bluemoonId: Option<int>, unitNumber: string, userId: int)

  /** A row of the `lease_esignatures` table. The provider's id and the
      owning lease never change after creation; the status and the raw
      provider payload are overwritten in place by every reconciliation. */
  class LeaseEsignature {
    const id: int
    const bluemoonId: Option<int>
    const leaseId: int
    var status: StatusEnum
    var data: Json

    /** A new record as committed by `session.commit()` (app.py:174-180):
        SQLAlchemy fills in the column default, `pending`, at INSERT time. */
    constructor (id: int, bluemoonId: Option<int>, leaseId: int, data: Json)
      ensures this.id == id && this.bluemoonId == bluemoonId && this.leaseId == leaseId
      ensures this.data == data && status == Pending
    {
      this.id := id;
      this.bluemoonId := bluemoonId;
      this.leaseId := leaseId;
      this.data := data;
      status := Pending;
    }

    /** Recompute the status from the provider's `signers_data`. The new
        status is a function of the argument alone; on an exception the
        status is left as it was. */
    method TransitionStatus(signersData: Json) returns (r: Result<()>)
      modifies this`status
      ensures r.Raise? <==> Derivation(signersData).Raise?
      ensures r.Raise? ==> r.error == Derivation(signersData).error && status == old(status)
      ensures r.Ok? ==> status == Derivation(signersData).value
    {
      var entries: seq<Json>;
      match Entries(signersData) {
        case Raise(e) => return Raise(e);
        case Ok(es) => entries := es;
      }
      var signers: nat, signed: nat, owner: Json := 0, 0, Bool(false);
      ghost var seen: seq<Signer> := [];
      for i := 0 to |entries|
        invariant ParseSigners(entries[..i]) == Ok(seen)
        invariant Count(seen) == Tally(signers, signed, Truthy(owner))
        invariant status == old(status)
      {
        var signer := entries[i];
        var identifier := Get(signer, "identifier");
        if identifier.Raise? {
          assert ParseSigner(signer) == Raise(identifier.error);
          ParseSignersStopsAt(entries, i);
          return Raise(identifier.error);
        }
        if identifier.value == Str("owner") {
          var completed := Get(signer, "completed");
          if completed.Raise? {
            ParseSignersStopsAt(entries, i);
            return Raise(completed.error);
          }
          owner := completed.value;
          ParseSignersStep(entries, i, seen, Signer(identifier.value, completed.value));
          seen := seen + [Signer(identifier.value, completed.value)];
          continue;
        }
        signers := signers + 1;
        var completed := Get(signer, "completed");
        if completed.Raise? {
          ParseSignersStopsAt(entries, i);
          return Raise(completed.error);
        }
        if Truthy(completed.value) {
          signed := signed + 1;
        }
        ParseSignersStep(entries, i, seen, Signer(identifier.value, completed.value));
        seen := seen + [Signer(identifier.value, completed.value)];
      }
      assert entries[..|entries|] == entries;
      status :=
        if Truthy(owner) then Executed
        else if signers == signed then Signed
        else if signers != 0 then Processing
        else Pending;
      r := Ok(());
    }
  }

  // ---------------------------------------------------------------------------
  // Signers

  /** One entry of the provider's signer list, as transition_status reads it. */
  datatype Signer = Signer(identifier: Json, completed: Json) {
    /** The lease owner's own entry (identifier `"owner"`); every other entry is a resident's. */
    predicate IsOwner() {
      identifier == Str("owner")
    }

    predicate HasCompleted() {
      Truthy(completed)
    }
  }

  /** Reading one entry: `entry["identifier"]` first, then `entry["completed"]`. */
  function ParseSigner(entry: Json): (r: Result<Signer>)
    ensures r.Ok? <==> entry.Obj? && "identifier" in entry.fields && "completed" in entry.fields
    ensures r.Ok? ==> r.value == Signer(entry.fields["identifier"], entry.fields["completed"])
    ensures r.Raise? ==> (r.error == TypeError <==> !entry.Obj?) && r.error in {KeyError, TypeError}
  {
    match Get(entry, "identifier")
    case Raise(e) => Raise(e)
    case Ok(identifier) =>
      match Get(entry, "completed")
      case Raise(e) => Raise(e)
      case Ok(completed) => Ok(Signer(identifier, completed))
  }

  /** Reading the entries in order; the first entry that cannot be read raises. */
  function ParseSigners(entries: seq<Json>): (r: Result<seq<Signer>>)
    decreases |entries|
    ensures r.Ok? <==> forall i :: 0 <= i < |entries| ==> ParseSigner(entries[i]).Ok?
    ensures r.Ok? ==> |r.value| == |entries|
    ensures r.Ok? ==> forall i :: 0 <= i < |entries| ==> ParseSigner(entries[i]) == Ok(r.value[i])
    ensures r.Raise? ==> r.error in {KeyError, TypeError}
  {
    if entries == [] then Ok([])
    else
      var prefix := entries[..|entries| - 1];
      assert forall i :: 0 <= i < |prefix| ==> prefix[i] == entries[i];
      match ParseSigners(prefix)
      case Raise(e) => Raise(e)
      case Ok(done) =>
        match ParseSigner(entries[|entries| - 1])
        case Raise(e) => Raise(e)
        case Ok(s) => Ok(done + [s])
  }

  /** Reading one more entry extends what was read, and the counters move
      as the loop body moves them. */
  lemma ParseSignersStep(entries: seq<Json>, i: nat, seen: seq<Signer>, x: Signer)
    requires i < |entries|
    requires ParseSigners(entries[..i]) == Ok(seen) && ParseSigner(entries[i]) == Ok(x)
    ensures ParseSigners(entries[..i + 1]) == Ok(seen + [x])
    ensures Count(seen + [x]) == (var t := Count(seen);
      if x.IsOwner() then t.(owner := x.HasCompleted())
      else Tally(t.signers + 1, if x.HasCompleted() then t.signed + 1 else t.signed, t.owner))
  {
    assert entries[..i + 1][..i] == entries[..i];
    assert (seen + [x])[..|seen|] == seen;
  }

  /** When every entry before `i` reads and entry `i` does not, reading the
      whole list raises what entry `i` raises. */
  lemma {:induction false} ParseSignersStopsAt(entries: seq<Json>, i: nat)
    requires i < |entries|
    requires ParseSigners(entries[..i]).Ok? && ParseSigner(entries[i]).Raise?
    ensures ParseSigners(entries) == Raise(ParseSigner(entries[i]).error)
    decreases |entries|
  {
    var prefix := entries[..|entries| - 1];
    if i == |entries| - 1 {
      assert prefix == entries[..i];
    } else {
      assert prefix[..i] == entries[..i] && prefix[i] == entries[i];
      ParseSignersStopsAt(prefix, i);
    }
  }

  /** What the `for` loop of transition_status visits: a list's elements, a
      str's characters (each a one-character str). None, bool and int are
      not iterable: TypeError. A dict visits its keys, which are strs, and
      the loop body's first subscript of a str raises TypeError; so a
      non-empty dict raises TypeError at once and an empty one visits nothing. */
  function Entries(signersData: Json): (r: Result<seq<Json>>)
    ensures r.Ok? <==> signersData.Arr? || signersData.Str? || signersData == Obj(map[])
    ensures r.Raise? ==> r.error == TypeError
    ensures signersData.Arr? ==> r == Ok(signersData.items)
    ensures signersData.Str? ==>
      && r.Ok? && |r.value| == |signersData.s|
      && forall i :: 0 <= i < |signersData.s| ==> r.value[i] == Str([signersData.s[i]])
    ensures signersData == Obj(map[]) ==> r == Ok([])
  {
    match signersData
    case Arr(items) => Ok(items)
    case Str(s) => Ok(seq(|s|, i requires 0 <= i < |s| => Str([s[i]])))
    case Obj(fields) => if fields == map[] then Ok([]) else Raise(TypeError)
    case _ => Raise(TypeError)
  }

  /** The counters transition_status keeps: resident signers seen, those of
      them that completed, and the owner flag. */
  datatype Tally = Tally(signers: nat, signed: nat, owner: bool)

  /** The counters after the loop has visited `s`, in order. An owner entry
      overwrites the flag and is not counted; every other entry is. */
  function Count(s: seq<Signer>): (t: Tally)
    decreases |s|
    ensures t.signed <= t.signers <= |s|
  {
    if s == [] then Tally(0, 0, false)
    else
      var t := Count(s[..|s| - 1]);
      var x := s[|s| - 1];
      if x.IsOwner() then t.(owner := x.HasCompleted())
      else Tally(t.signers + 1, if x.HasCompleted() then t.signed + 1 else t.signed, t.owner)
  }

  /** The status transition_status assigns once the loop has visited `s`:
      never `pending`, since no more residents can have completed than were seen. */
  function Derive(s: seq<Signer>): (r: StatusEnum)
    ensures r != Pending
  {
    var t := Count(s);
    if t.owner then Executed
    else if t.signers == t.signed then Signed
    else if t.signers != 0 then Processing
    else Pending
  }

  /** The status transition_status would assign for `signers_data`, or the
      exception reading it raises. */
  function Derivation(signersData: Json): (r: Result<StatusEnum>)
    ensures r.Raise? ==> r.error in {KeyError, TypeError}
  {
    match Entries(signersData)
    case Raise(e) => Raise(e)
    case Ok(entries) =>
      match ParseSigners(entries)
      case Raise(e) => Raise(e)
      case Ok(s) => Ok(Derive(s))
  }

  /** A str of signers is iterated character by character, and the first
      character's `["identifier"]` raises TypeError; an empty str and an
      empty dict visit nothing and derive `signed`. */
  lemma DerivationOfStrAndEmptyDict(s: string)
    ensures Derivation(Str(s)) == if s == "" then Ok(Signed) else Raise(TypeError)
    ensures Derivation(Obj(map[])) == Ok(Signed)
  {
    var entries := Entries(Str(s)).value;
    if s != "" {
      assert entries[0] == Str([s[0]]);
      assert ParseSigner(entries[0]) == Raise(TypeError);
      assert entries[..0] == [];
      ParseSignersStopsAt(entries, 0);
    } else {
      assert entries == [];
    }
  }

  // ---------------------------------------------------------------------------
  // Reference definitions of what Derive looks at

  /** The resident entries of `s`, in order. */
  function Residents(s: seq<Signer>): seq<Signer>
    decreases |s|
  {
    if s == [] then []
    else Residents(s[..|s| - 1]) + (if s[|s| - 1].IsOwner() then [] else [s[|s| - 1]])
  }

  /** The entries of `s` that have completed, in order. */
  function Completed(s: seq<Signer>): seq<Signer>
    decreases |s|
  {
    if s == [] then []
    else Completed(s[..|s| - 1]) + (if s[|s| - 1].HasCompleted() then [s[|s| - 1]] else [])
  }

  /** Entry `i` is an owner entry and no owner entry follows it. */
  ghost predicate IsLastOwner(s: seq<Signer>, i: int) {
    0 <= i < |s| && s[i].IsOwner() && forall j :: i < j < |s| ==> !s[j].IsOwner()
  }

  /** The last owner entry of `s` exists and has completed. */
  ghost predicate LastOwnerCompleted(s: seq<Signer>) {
    exists i :: IsLastOwner(s, i) && s[i].HasCompleted()
  }

  lemma {:induction false} CompletedConcat(u: seq<Signer>, v: seq<Signer>)
    ensures Completed(u + v) == Completed(u) + Completed(v)
    decreases |v|
  {
    if v == [] {
      assert u + v == u;
    } else {
      var v' := v[..|v| - 1];
      CompletedConcat(u, v');
      assert (u + v)[..|u + v| - 1] == u + v';
    }
  }

  lemma {:induction false} CompletedBounds(u: seq<Signer>)
    ensures |Completed(u)| <= |u|
    ensures |Completed(u)| == |u| <==> forall r :: r in u ==> r.HasCompleted()
    decreases |u|
  {
    if u != [] {
      var u' := u[..|u| - 1];
      CompletedBounds(u');
      assert u == u' + [u[|u| - 1]];
    }
  }

  /** The counters mean what their names say: `signers` counts the resident
      entries, `signed` the residents that completed, and the owner flag is
      the completion of the last owner entry. */
  lemma CountMeaning(s: seq<Signer>)
    ensures Count(s).signers == |Residents(s)|
    ensures Count(s).signed == |Completed(Residents(s))|
    ensures Count(s).owner <==> LastOwnerCompleted(s)
  {
    CountResidents(s);
    CountOwner(s);
  }

  lemma {:induction false} CountResidents(s: seq<Signer>)
    ensures Count(s).signers == |Residents(s)|
    ensures Count(s).signed == |Completed(Residents(s))|
    decreases |s|
  {
    if s != [] {
      var s' := s[..|s| - 1];
      var x := s[|s| - 1];
      CountResidents(s');
      var r' := Residents(s');
      if !x.IsOwner() {
        assert Residents(s) == r' + [x];
        assert (r' + [x])[..|r'|] == r';
        assert Completed(r' + [x]) == Completed(r') + (if x.HasCompleted() then [x] else []);
      } else {
        assert Residents(s) == r';
      }
    }
  }

  lemma {:induction false} CountOwner(s: seq<Signer>)
    ensures Count(s).owner <==> LastOwnerCompleted(s)
    decreases |s|
  {
    if s != [] {
      CountOwner(s[..|s| - 1]);
      LastOwnerStep(s);
    }
  }

  /** How the last owner entry changes when one more entry is visited. */
  lemma LastOwnerStep(s: seq<Signer>)
    requires s != []
    ensures s[|s| - 1].IsOwner() ==> (LastOwnerCompleted(s) <==> s[|s| - 1].HasCompleted())
    ensures !s[|s| - 1].IsOwner() ==> (LastOwnerCompleted(s) <==> LastOwnerCompleted(s[..|s| - 1]))
  {
    var s' := s[..|s| - 1];
    var x := s[|s| - 1];
    if x.IsOwner() {
      if x.HasCompleted() {
        assert IsLastOwner(s, |s| - 1);
      }
      forall i | IsLastOwner(s, i) ensures i == |s| - 1 { }
    } else {
      forall i | 0 <= i < |s'| ensures IsLastOwner(s, i) <==> IsLastOwner(s', i) {
        assert s[i] == s'[i];
        assert forall j :: i < j < |s'| ==> s[j] == s'[j];
      }
      if LastOwnerCompleted(s) {
        var i :| IsLastOwner(s, i) && s[i].HasCompleted();
        assert i < |s'| && IsLastOwner(s', i) && s'[i] == s[i];
      }
      if LastOwnerCompleted(s') {
        var i :| IsLastOwner(s', i) && s'[i].HasCompleted();
        assert IsLastOwner(s, i) && s[i] == s'[i];
      }
    }
  }

  // ---------------------------------------------------------------------------
  // Properties of the derivation

  /** The status is `executed` exactly when the last owner entry has
      completed, whatever the residents' entries say. */
  lemma DeriveExecuted(s: seq<Signer>)
    ensures Derive(s) == Executed <==> LastOwnerCompleted(s)
  {
    CountMeaning(s);
  }

  /** Otherwise it is `signed` exactly when every resident entry has
      completed, which includes a list without residents. */
  lemma DeriveSigned(s: seq<Signer>)
    ensures Derive(s) == Signed <==> !LastOwnerCompleted(s) && forall r :: r in Residents(s) ==> r.HasCompleted()
  {
    CountMeaning(s);
    CompletedBounds(Residents(s));
  }

  /** Otherwise it is `processing` exactly when some resident entry has not completed. */
  lemma DeriveProcessing(s: seq<Signer>)
    ensures Derive(s) == Processing <==> !LastOwnerCompleted(s) && exists r :: r in Residents(s) && !r.HasCompleted()
  {
    CountMeaning(s);
    CompletedBounds(Residents(s));
  }

  /** An empty signer list derives `signed`. */
  lemma DeriveEmpty()
    ensures Derive([]) == Signed
  {
  }

  /** The completed count of a list depends only on its multiset of entries. */
  lemma {:induction false} CompletedPermutation(a: seq<Signer>, b: seq<Signer>)
    requires multiset(a) == multiset(b)
    ensures |Completed(a)| == |Completed(b)|
    decreases |a|
  {
    if a == [] {
      assert |b| == |multiset(b)| == 0;
    } else {
      var x := a[|a| - 1];
      var a' := a[..|a| - 1];
      assert a == a' + [x];
      assert x in multiset(b);
      var k :| 0 <= k < |b| && b[k] == x;
      var b' := b[..k] + b[k + 1..];
      MultisetRemove(b, k);
      MultisetRemove(a, |a| - 1);
      assert a[..|a| - 1] + a[|a|..] == a';
      CompletedPermutation(a', b');
      CompletedRemove(b, k);
    }
  }

  lemma MultisetRemove<T>(b: seq<T>, k: nat)
    requires k < |b|
    ensures multiset(b[..k] + b[k + 1..]) == multiset(b) - multiset{b[k]}
  {
    assert b == b[..k] + [b[k]] + b[k + 1..];
  }

  /** The completed count drops by the completion of the entry removed. */
  lemma CompletedRemove(b: seq<Signer>, k: nat)
    requires k < |b|
    ensures |Completed(b)| == |Completed(b[..k] + b[k + 1..])| + (if b[k].HasCompleted() then 1 else 0)
  {
    var x := b[k];
    assert b == b[..k] + [x] + b[k + 1..];
    CompletedConcat(b[..k], b[k + 1..]);
    CompletedConcat(b[..k] + [x], b[k + 1..]);
    CompletedConcat(b[..k], [x]);
    assert [x][..0] == [];
  }

  /** Reordering the resident entries changes nothing: only the multiset of
      resident entries and the last owner entry's completion matter. */
  lemma DeriveIgnoresResidentOrder(s: seq<Signer>, t: seq<Signer>)
    requires multiset(Residents(s)) == multiset(Residents(t))
    requires LastOwnerCompleted(s) == LastOwnerCompleted(t)
    ensures Derive(s) == Derive(t)
  {
    CountMeaning(s);
    CountMeaning(t);
    CompletedPermutation(Residents(s), Residents(t));
    assert |Residents(s)| == |multiset(Residents(s))| == |multiset(Residents(t))| == |Residents(t)|;
  }

  /** A scenario: an owner who has not completed beside two completed
      residents is `signed`; once a later owner entry completes, `executed`. */
  lemma SnapshotScenario()
    ensures Derive([Signer(Str("owner"), Bool(false)), Signer(Str("resident1"), Bool(true)),
                    Signer(Str("resident2"), Bool(true))]) == Signed
    ensures Derive([Signer(Str("owner"), Bool(false)), Signer(Str("resident1"), Bool(true)),
                    Signer(Str("resident2"), Bool(true)), Signer(Str("owner"), Bool(true))]) == Executed
  {
    var first := [Signer(Str("owner"), Bool(false)), Signer(Str("resident1"), Bool(true)),
                  Signer(Str("resident2"), Bool(true))];
    var later := first + [Signer(Str("owner"), Bool(true))];
    assert first[..1] == [first[0]] && first[..2] == [first[0], first[1]];
    assert Count(first[..1]) == Tally(0, 0, false);
    assert Count(first[..2]) == Tally(1, 1, false);
    assert Count(first) == Tally(2, 2, false);
    assert later[..3] == first;
  }
}
