/** The actions of the users service (`list`, `model`, `get`, `create`,
    `update`, `remove`) as steps of a state machine over the collection,
    the action cache and the stream of effects the service emits. Each
    step returns the new state and the action's result or fault. */
module Pipeline {
  import opened Wrappers
  import opened JsString
  import opened DuplicateKey
  import opened UserModel
  import opened Store

  /** The message code `checkModel` fails with. */
  const UserNotFound: string := "app:UserNotFound"

  /** The params of `list` its cache key is made of. */
  datatype ListParams = ListParams(
    limit: Option<int>, offset: Option<int>, sort: Option<string>,
    filter: Option<string>, author: Option<string>)

  /** A cache key: the action and the params it is cached by. */
  datatype CacheKey =
    | ListKey(params: ListParams) // keys: limit, offset, sort, filter, author
    | GetKey(code: string)        // keys: code
    | ModelKey(code: string)      // all params; `model` is called with `code` only

  /** A cached action result. */
  datatype Reply =
    | ListReply(items: seq<Json>)
    | GetReply(json: Json)
    | ModelReply(user: User)

  datatype ChangeKind = Created | Updated | Removed

  /** What the service emits, in order: `notifyModelChanges` and
      `clearCache`. */
  datatype Effect =
    | Notified(kind: ChangeKind, payload: Json, actor: Option<string>)
    | CacheCleared

  datatype State = State(records: seq<User>, cache: map<CacheKey, Reply>, log: seq<Effect>)

  /** `toJSON` of a list of documents. */
  function SerializeAll(records: seq<User>): (r: seq<Json>)
    ensures |r| == |records|
    ensures forall i | 0 <= i < |r| :: r[i] == ToJSON(records[i])
    ensures forall i | 0 <= i < |r| :: r[i].Keys <= AllowList && r[i].Keys !! Secrets
  {
    seq(|records|, i requires 0 <= i < |records| => ToJSON(records[i]))
  }

  /** The result an action computes from the collection alone, for the
      results that get cached. */
  function Answer(records: seq<User>, key: CacheKey): Option<Reply> {
    match key
    case ListKey(_) => Some(ListReply(SerializeAll(records)))
    case GetKey(code) =>
      if Find(records, code).Some? then Some(GetReply(ToJSON(Find(records, code).value))) else None
    case ModelKey(code) =>
      if Find(records, code).Some? then Some(ModelReply(Find(records, code).value)) else None
  }

  /** Every cache entry is what its action would compute now. */
  ghost predicate Coherent(records: seq<User>, cache: map<CacheKey, Reply>) {
    forall k | k in cache :: Answer(records, k) == Some(cache[k])
  }

  /** The invariant of the service's state. */
  ghost predicate Valid(s: State) {
    Unique(s.records) && Coherent(s.records, s.cache)
  }

  /** A successful mutation: the collection as written, one change event,
      then the whole cache cleared. */
  function Committed(s: State, records: seq<User>, kind: ChangeKind, payload: Json, actor: Option<string>): (r: State)
    ensures r.cache == map[] && |r.log| == |s.log| + 2 && r.log[..|s.log|] == s.log
  {
    State(records, map[], s.log + [Notified(kind, payload, actor), CacheCleared])
  }

  // ---------------------------------------------------------------------
  // Reads

  /** `list`: the cached result for its params, or every record
      serialized, which is then cached. */
  function ListStep(s: State, q: ListParams): (r: (State, seq<Json>))
    ensures r.0.records == s.records && r.0.log == s.log
  {
    var k := ListKey(q);
    if k in s.cache && s.cache[k].ListReply? then (s, s.cache[k].items)
    else
      var items := SerializeAll(s.records);
      (s.(cache := s.cache[k := ListReply(items)]), items)
  }

  /** `model`: the cached record for `code`, or the stored one, which is
      then cached. */
  function ModelStep(s: State, code: string): (r: (State, Option<User>))
    ensures r.0.records == s.records && r.0.log == s.log
    ensures r.1.None? ==> r.0 == s
  {
    var k := ModelKey(code);
    if k in s.cache && s.cache[k].ModelReply? then (s, Some(s.cache[k].user))
    else match Find(s.records, code)
      case None => (s, None)
      case Some(u) => (s.(cache := s.cache[k := ModelReply(u)]), Some(u))
  }

  /** `get`: the cached result for `code`, or `model` followed by
      `checkModel` and `toJSON`. */
  function GetStep(s: State, code: string): (r: (State, Result<Json, Fault>))
    ensures r.0.records == s.records && r.0.log == s.log
    ensures r.1.Err? ==> r.0 == s && r.1 == Err(NotFound(UserNotFound))
  {
    var k := GetKey(code);
    if k in s.cache && s.cache[k].GetReply? then (s, Ok(s.cache[k].json))
    else
      var m := ModelStep(s, code);
      match m.1
      case None => (m.0, Err(NotFound(UserNotFound)))
      case Some(u) =>
        var json := ToJSON(u);
        (m.0.(cache := m.0.cache[k := GetReply(json)]), Ok(json))
  }

  // ---------------------------------------------------------------------
  // Mutations

  /** `create`: save the new user; on failure translate the store error
      and change nothing, on success notify `created` and clear the cache.
      `fault` is the failure of the store other than a unique index. */
  function CreateStep(s: State, ns: string, code: string, p: UserParams, password: string,
                      resetToken: string, now: int, actor: Option<string>,
                      fault: Option<StoreError>): (r: (State, Result<Json, Fault>))
    ensures r.1.Err? ==> r.0 == s
  {
    var u := NewUser(code, p, password, resetToken, now);
    match SaveError(ns, s.records, u, true, fault)
    case Some(e) => (s, Err(TranslateCreateError(e)))
    case None =>
      var json := ToJSON(u);
      (Committed(s, Saved(s.records, u), Created, json, actor), Ok(json))
  }

  /** `update`: resolve the record, patch it and save it, with the same
      outcomes as `create`. */
  function UpdateStep(s: State, ns: string, code: string, p: UserParams, actor: Option<string>,
                      fault: Option<StoreError>): (r: (State, Result<Json, Fault>))
    ensures r.1.Err? ==> r.0 == s
  {
    match Find(s.records, code)
    case None => (s, Err(NotFound(UserNotFound)))
    case Some(u) =>
      var v := Patch(u, p);
      match SaveError(ns, s.records, v, false, fault)
      case Some(e) => (s, Err(TranslateUpdateError(e)))
      case None =>
        var json := ToJSON(v);
        (Committed(s, Saved(s.records, v), Updated, json, actor), Ok(json))
  }

  /** `remove`: resolve the record through `model`, delete it, and return
      it as it was; `fault` is a failure of the delete. */
  function RemoveStep(s: State, code: string, actor: Option<string>,
                      fault: Option<StoreError>): (r: (State, Result<Json, Fault>))
    ensures r.1.Err? ==> r.0.records == s.records && r.0.log == s.log
  {
    var m := ModelStep(s, code);
    match m.1
    case None => (m.0, Err(NotFound(UserNotFound)))
    case Some(u) =>
      if fault.Some? then (m.0, Err(Rethrown(fault.value)))
      else
        var json := ToJSON(u);
        (Committed(m.0, Delete(m.0.records, code), Removed, json, actor), Ok(json))
  }

  // ---------------------------------------------------------------------
  // Reads answer from the collection, through the cache

  /** `list` returns every record serialized, cached or not, and keeps
      the invariant. */
  lemma ListAnswersStore(s: State, q: ListParams)
    requires Valid(s)
    ensures ListStep(s, q).1 == SerializeAll(s.records)
    ensures Valid(ListStep(s, q).0)
  {
    var k := ListKey(q);
    if k in s.cache {
      assert Answer(s.records, k) == Some(s.cache[k]);
    }
  }

  /** `model` returns the stored record, cached or not, and keeps the
      invariant. */
  lemma ModelAnswersStore(s: State, code: string)
    requires Valid(s)
    ensures ModelStep(s, code).1 == Find(s.records, code)
    ensures Valid(ModelStep(s, code).0)
  {
    var k := ModelKey(code);
    if k in s.cache {
      assert Answer(s.records, k) == Some(s.cache[k]);
    }
  }

  /** `get` returns the stored record serialized, cached or not, and
      fails with NotFound exactly when no record has the code, without
      changing anything. */
  lemma GetAnswersStore(s: State, code: string)
    requires Valid(s)
    ensures Find(s.records, code).None? ==> GetStep(s, code) == (s, Err(NotFound(UserNotFound)))
    ensures Find(s.records, code).Some? ==> GetStep(s, code).1 == Ok(ToJSON(Find(s.records, code).value))
    ensures Valid(GetStep(s, code).0)
  {
    var k := GetKey(code);
    if k in s.cache {
      assert Answer(s.records, k) == Some(s.cache[k]);
    } else {
      ModelAnswersStore(s, code);
    }
  }

  // ---------------------------------------------------------------------
  // Mutations keep the invariant

  lemma CreateKeepsValid(s: State, ns: string, code: string, p: UserParams, password: string,
                         resetToken: string, now: int, actor: Option<string>, fault: Option<StoreError>)
    requires Valid(s)
    ensures Valid(CreateStep(s, ns, code, p, password, resetToken, now, actor, fault).0)
  {
    var u := NewUser(code, p, password, resetToken, now);
    if SaveError(ns, s.records, u, true, fault).None? {
      SavedKeepsUnique(s.records, u);
    }
  }

  lemma UpdateKeepsValid(s: State, ns: string, code: string, p: UserParams, actor: Option<string>,
                         fault: Option<StoreError>)
    requires Valid(s)
    ensures Valid(UpdateStep(s, ns, code, p, actor, fault).0)
  {
    if Find(s.records, code).Some? {
      var v := Patch(Find(s.records, code).value, p);
      if SaveError(ns, s.records, v, false, fault).None? {
        SavedKeepsUnique(s.records, v);
      }
    }
  }

  lemma RemoveKeepsValid(s: State, code: string, actor: Option<string>, fault: Option<StoreError>)
    requires Valid(s)
    ensures Valid(RemoveStep(s, code, actor, fault).0)
  {
    ModelAnswersStore(s, code);
    DeleteKeepsUnique(s.records, code);
  }

  // ---------------------------------------------------------------------
  // Outcomes of the mutations

  /** A successful `create` stores the new user under its code, returns it
      serialized, notifies `created` with that payload and then clears the
      cache; a failed one changes nothing and returns the translated
      error. */
  lemma CreateOutcome(s: State, ns: string, code: string, p: UserParams, password: string,
                      resetToken: string, now: int, actor: Option<string>, fault: Option<StoreError>)
    ensures var u := NewUser(code, p, password, resetToken, now);
      var r := CreateStep(s, ns, code, p, password, resetToken, now, actor, fault);
      match SaveError(ns, s.records, u, true, fault)
      case Some(e) => r == (s, Err(TranslateCreateError(e)))
      case None =>
        && r.1 == Ok(ToJSON(u))
        && Find(r.0.records, code) == Some(u)
        && (forall c | c != code :: Find(r.0.records, c) == Find(s.records, c))
        && r.0.cache == map[]
        && r.0.log == s.log + [Notified(Created, ToJSON(u), actor), CacheCleared]
  {
  }

  /** `create` followed by `get` of the new code returns what `create`
      returned: the code, `verified: true` and the copied params the
      allow-list lets through. */
  lemma CreateThenGet(s: State, ns: string, code: string, p: UserParams, password: string,
                      resetToken: string, now: int, actor: Option<string>, fault: Option<StoreError>)
    requires Valid(s)
    requires CreateStep(s, ns, code, p, password, resetToken, now, actor, fault).1.Ok?
    ensures var s1 := CreateStep(s, ns, code, p, password, resetToken, now, actor, fault).0;
      && GetStep(s1, code).1 == CreateStep(s, ns, code, p, password, resetToken, now, actor, fault).1
      && GetStep(s1, code).1
         == Ok(map f | f in AllFields && CreatedView(code, p, f).Some? :: CreatedView(code, p, f).value)
  {
    CreateKeepsValid(s, ns, code, p, password, resetToken, now, actor, fault);
    var s1 := CreateStep(s, ns, code, p, password, resetToken, now, actor, fault).0;
    GetAnswersStore(s1, code);
    CreatedJson(code, p, password, resetToken, now);
  }

  /** After any successful mutation a `list` answers from the collection
      as written, never from an entry cached before. */
  lemma ListAfterMutation(s: State, records: seq<User>, kind: ChangeKind, payload: Json,
                          actor: Option<string>, q: ListParams)
    ensures ListStep(Committed(s, records, kind, payload, actor), q).1 == SerializeAll(records)
  {
  }

  /** `update` of a code that no record has fails with NotFound and
      changes nothing. */
  lemma UpdateNotFound(s: State, ns: string, code: string, p: UserParams, actor: Option<string>,
                       fault: Option<StoreError>)
    requires Find(s.records, code).None?
    ensures UpdateStep(s, ns, code, p, actor, fault) == (s, Err(NotFound(UserNotFound)))
  {
  }

  /** A successful `update` writes the patched record over the old one,
      returns it serialized, notifies `updated` and clears the cache. */
  lemma UpdateOutcome(s: State, ns: string, code: string, p: UserParams, actor: Option<string>,
                      fault: Option<StoreError>)
    requires UpdateStep(s, ns, code, p, actor, fault).1.Ok?
    ensures Find(s.records, code).Some?
    ensures var v := Patch(Find(s.records, code).value, p);
      var r := UpdateStep(s, ns, code, p, actor, fault);
      && r.1 == Ok(ToJSON(v))
      && Find(r.0.records, code) == Some(v)
      && (forall c | c != code :: Find(r.0.records, c) == Find(s.records, c))
      && r.0.cache == map[]
      && r.0.log == s.log + [Notified(Updated, ToJSON(v), actor), CacheCleared]
  {
  }

  /** A failed save in `update` is answered with the store's error as
      `update` translates it, and nothing changes. */
  lemma UpdateFailure(s: State, ns: string, code: string, p: UserParams, actor: Option<string>,
                      fault: Option<StoreError>)
    requires Find(s.records, code).Some?
    ensures var v := Patch(Find(s.records, code).value, p);
      SaveError(ns, s.records, v, false, fault).Some? ==>
        UpdateStep(s, ns, code, p, actor, fault)
          == (s, Err(TranslateUpdateError(SaveError(ns, s.records, v, false, fault).value)))
  {
  }

  /** `update` with no params set and no store failure leaves the
      collection as it was, and still notifies `updated` and clears the
      cache. */
  lemma EmptyUpdate(s: State, ns: string, code: string, actor: Option<string>)
    requires Valid(s) && Find(s.records, code).Some?
    ensures var u := Find(s.records, code).value;
      UpdateStep(s, ns, code, NoParams, actor, None)
        == (State(s.records, map[], s.log + [Notified(Updated, ToJSON(u), actor), CacheCleared]), Ok(ToJSON(u)))
  {
    var u := Find(s.records, code).value;
    PatchWithNoParams(u);
    var i :| 0 <= i < |s.records| && s.records[i] == u;
    MemberHasNoConflict(s.records, i);
    ReplaceSame(s.records, i);
  }

  /** A stored record collides with no other record of a collection
      without duplicates. */
  lemma MemberHasNoConflict(records: seq<User>, i: nat)
    requires Unique(records) && i < |records|
    ensures Conflict(records, records[i]).None?
  {
    var u := records[i];
    forall x | x in records && x.code != u.code ensures Clash(x, u).None? {
      var j :| 0 <= j < |records| && records[j] == x;
      if i < j {
        assert Clash(u, x).None?;
      }
    }
  }

  /** Writing a stored record back under its own code changes nothing. */
  lemma ReplaceSame(records: seq<User>, i: nat)
    requires Unique(records) && i < |records|
    ensures Replace(records, records[i].code, records[i]) == records
  {
    var code := records[i].code;
    var r := Replace(records, code, records[i]);
    forall j | 0 <= j < |records| ensures r[j] == records[j] {
      ReplaceAt(records, code, records[i], j);
      assert j != i ==> records[j].code != code by {
        if j < i { assert records[j].code != records[i].code; }
        else if j > i { assert records[i].code != records[j].code; }
      }
    }
    assert |r| == |records|;
  }

  /** A successful `remove` returns the record as it was before the
      deletion, notifies `removed` with it and clears the cache, and the
      code resolves to nothing afterwards; no other code changes. */
  lemma RemoveOutcome(s: State, code: string, actor: Option<string>, fault: Option<StoreError>)
    requires Valid(s)
    ensures Find(s.records, code).None? ==> RemoveStep(s, code, actor, fault) == (s, Err(NotFound(UserNotFound)))
    ensures Find(s.records, code).Some? && fault.Some? ==>
      RemoveStep(s, code, actor, fault).1 == Err(Rethrown(fault.value))
    ensures Find(s.records, code).Some? && fault.None? ==>
      var u := Find(s.records, code).value;
      var r := RemoveStep(s, code, actor, fault);
      && r.1 == Ok(ToJSON(u))
      && Find(r.0.records, code).None?
      && (forall c | c != code :: Find(r.0.records, c) == Find(s.records, c))
      && r.0.cache == map[]
      && r.0.log == s.log + [Notified(Removed, ToJSON(u), actor), CacheCleared]
  {
    ModelAnswersStore(s, code);
  }

  /** `create` with a code a stored record already has inserts nothing:
      it fails with a 400 on the `_id_` index (field "_id") and changes
      nothing, so it never overwrites a record. */
  lemma CreateTakenCode(s: State, ns: string, code: string, p: UserParams, password: string,
                        resetToken: string, now: int, actor: Option<string>)
    requires Absent(ns + " ", IndexMarker)
    requires Find(s.records, code).Some?
    ensures var r := CreateStep(s, ns, code, p, password, resetToken, now, actor, None);
      && r.0 == s
      && r.1.Err? && r.1.error.BadRequest?
      && r.1.error.error.status == 400
      && r.1.error.error.paramField == "_id"
  {
    var err := StoreError(DuplicateKeyCode, DuplicateKeyMessage(ns, IdIndex, code));
    IdMessageField(ns, code);
    assert CreateStep(s, ns, code, p, password, resetToken, now, actor, None) == (s, Err(TranslateCreateError(err)));
  }

  /** `create` with a fresh code and an email another user already has
      (with no other user holding its username) fails with a 400 whose
      field is "email", and changes nothing. */
  lemma DuplicateEmailOnCreate(s: State, ns: string, code: string, p: UserParams, password: string,
                               resetToken: string, now: int, actor: Option<string>, j: nat)
    requires Absent(ns + " ", IndexMarker)
    requires Find(s.records, code).None?
    requires p.email.Some?
    requires p.username.None? || forall x | x in s.records && x.code != code :: x.username != p.username
    requires j < |s.records| && s.records[j].code != code && s.records[j].email == p.email
    ensures var r := CreateStep(s, ns, code, p, password, resetToken, now, actor, None);
      && r.0 == s
      && r.1.Err? && r.1.error.BadRequest?
      && r.1.error.error.status == 400
      && r.1.error.error.paramField == "email"
      && r.1.error.error.msgCode == MsgCodePrefix + "email"
  {
    var u := NewUser(code, p, password, resetToken, now);
    var err := EmailTaken(ns, s.records, u, j);
    assert CreateStep(s, ns, code, p, password, resetToken, now, actor, None) == (s, Err(TranslateCreateError(err)));
  }

  /** `update` that sets an email another user already has (with no
      other user holding the patched username) fails with a 400 whose
      params.field carries the message code for "email", and changes
      nothing. */
  lemma DuplicateEmailOnUpdate(s: State, ns: string, code: string, p: UserParams,
                               actor: Option<string>, j: nat)
    requires Absent(ns + " ", IndexMarker)
    requires Find(s.records, code).Some?
    requires p.email.Some?
    requires var v := Patch(Find(s.records, code).value, p);
      v.username.None? || forall x | x in s.records && x.code != code :: x.username != v.username
    requires j < |s.records| && s.records[j].code != code && s.records[j].email == p.email
    ensures var r := UpdateStep(s, ns, code, p, actor, None);
      && r.0 == s
      && r.1.Err? && r.1.error.BadRequest?
      && r.1.error.error.status == 400
      && r.1.error.error.paramField == MsgCodePrefix + "email"
      && r.1.error.error.msgCode == MsgCodePrefix + "email"
  {
    var v := Patch(Find(s.records, code).value, p);
    assert v.code == code && v.email == p.email;
    EmailConflict(s.records, v, j);
    var err := StoreError(DuplicateKeyCode, DuplicateKeyMessage(ns, "email_1", p.email.value));
    assert "email" + "_1" == "email_1";
    DuplicateKeyMessageField(ns, "email", p.email.value);
    assert UpdateStep(s, ns, code, p, actor, None) == (s, Err(TranslateUpdateError(err)));
  }

  /** Saving a user whose email another record holds, and whose username
      no other record holds, fails with a duplicate-key error from which
      the service reads the field "email". */
  lemma EmailTaken(ns: string, records: seq<User>, u: User, j: nat) returns (err: StoreError)
    requires Absent(ns + " ", IndexMarker)
    requires Find(records, u.code).None?
    requires u.email.Some?
    requires u.username.None? || forall x | x in records && x.code != u.code :: x.username != u.username
    requires j < |records| && records[j].code != u.code && records[j].email == u.email
    ensures SaveError(ns, records, u, true, None) == Some(err)
    ensures err.code == DuplicateKeyCode && DuplicateField(err.message) == Some("email")
  {
    EmailConflict(records, u, j);
    err := StoreError(DuplicateKeyCode, DuplicateKeyMessage(ns, "email_1", u.email.value));
    assert "email" + "_1" == "email_1";
    DuplicateKeyMessageField(ns, "email", u.email.value);
  }

  /** A user whose email another record holds, and whose username no
      other record holds, collides on the `email_1` index. */
  lemma {:induction false} EmailConflict(records: seq<User>, u: User, j: nat)
    requires u.email.Some?
    requires u.username.None? || forall x | x in records && x.code != u.code :: x.username != u.username
    requires j < |records| && records[j].code != u.code && records[j].email == u.email
    ensures Conflict(records, u) == Some(("email_1", u.email.value))
  {
    if records[0].code != u.code && Clash(records[0], u).Some? {
      assert records[0] in records;
    } else {
      assert forall x | x in records[1..] :: x in records;
      EmailConflict(records[1..], u, j - 1);
    }
  }
}
