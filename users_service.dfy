/** The users service as an object: the collection, the action cache and
    the effects it has emitted, changed in place by its action handlers in
    the order the handlers perform their steps. */
module UsersService {
  import opened Wrappers
  import opened DuplicateKey
  import opened UserModel
  import opened Store
  import opened UserDocument
  import opened Pipeline

  class Service {
    /** The collection's namespace, which the store's error messages name. */
    const ns: string
    var records: seq<User>
    var cache: map<CacheKey, Reply>
    var log: seq<Effect>

    function State(): Pipeline.State
      reads this
    {
      Pipeline.State(records, cache, log)
    }

    ghost predicate Valid()
      reads this
    {
      Pipeline.Valid(State())
    }

    /** The service over the collection as it is stored when the service
        starts: no cached results and nothing emitted yet. */
    constructor(ns: string, records: seq<User>)
      requires Unique(records)
      ensures this.ns == ns && State() == Pipeline.State(records, map[], [])
      ensures Valid()
    {
      this.ns := ns;
      this.records := records;
      cache := map[];
      log := [];
    }

    /** `save` of a user document, new (inserted) or loaded (written in
        place): `fault` is a failure of the store other than a unique
        index. */
    method Save(u: User, isNew: bool, fault: Option<StoreError>) returns (e: Option<StoreError>)
      modifies this`records
      ensures e == SaveError(ns, old(records), u, isNew, fault)
      ensures records == if e.None? then Saved(old(records), u) else old(records)
    {
      e := SaveError(ns, records, u, isNew, fault);
      if e.None? {
        records := Saved(records, u);
      }
    }

    /** `notifyModelChanges`. */
    method Notify(kind: ChangeKind, payload: Json, actor: Option<string>)
      modifies this`log
      ensures log == old(log) + [Notified(kind, payload, actor)]
    {
      log := log + [Notified(kind, payload, actor)];
    }

    /** `clearCache`: every cached result of the service is dropped. */
    method ClearCache()
      modifies this`cache, this`log
      ensures cache == map[] && log == old(log) + [CacheCleared]
    {
      cache := map[];
      log := log + [CacheCleared];
    }

    /** The `list` action. */
    method List(q: ListParams) returns (items: seq<Json>)
      requires Valid()
      modifies this`cache
      ensures (State(), items) == ListStep(old(State()), q)
      ensures items == SerializeAll(records) && Valid()
    {
      ListAnswersStore(State(), q);
      var k := ListKey(q);
      if k in cache && cache[k].ListReply? {
        items := cache[k].items;
      } else {
        items := SerializeAll(records);
        cache := cache[k := ListReply(items)];
      }
    }

    /** The `model` action. */
    method Model(code: string) returns (m: Option<User>)
      requires Valid()
      modifies this`cache
      ensures (State(), m) == ModelStep(old(State()), code)
      ensures m == Find(records, code) && Valid()
    {
      ModelAnswersStore(State(), code);
      var k := ModelKey(code);
      if k in cache && cache[k].ModelReply? {
        m := Some(cache[k].user);
      } else {
        m := Find(records, code);
        if m.Some? {
          cache := cache[k := ModelReply(m.value)];
        }
      }
    }

    /** The `get` action. */
    method Get(code: string) returns (r: Result<Json, Fault>)
      requires Valid()
      modifies this`cache
      ensures (State(), r) == GetStep(old(State()), code)
      ensures Valid()
    {
      GetAnswersStore(State(), code);
      var k := GetKey(code);
      if k in cache && cache[k].GetReply? {
        r := Ok(cache[k].json);
      } else {
        var m := Model(code);
        if m.None? {
          r := Err(NotFound(UserNotFound));
        } else {
          var json := ToJSON(m.value);
          cache := cache[k := GetReply(json)];
          r := Ok(json);
        }
      }
    }

    /** `save` followed, on success, by `notifyModelChanges` and
        `clearCache`, as `create` and `update` chain them. */
    method Persist(u: User, isNew: bool, kind: ChangeKind, actor: Option<string>, fault: Option<StoreError>)
      returns (e: Option<StoreError>)
      modifies this
      ensures e == SaveError(ns, old(records), u, isNew, fault)
      ensures State() == if e.Some? then old(State())
                         else Committed(old(State()), Saved(old(records), u), kind, ToJSON(u), actor)
    {
      e := Save(u, isNew, fault);
      if e.None? {
        Notify(kind, ToJSON(u), actor);
        ClearCache();
      }
    }

    /** The `create` action: `code` is the identity the store gives the
        new document, `password` and `resetToken` the two random tokens
        and `now` the clock. */
    method Create(code: string, p: UserParams, password: string, resetToken: string, now: int,
                  actor: Option<string>, fault: Option<StoreError>) returns (r: Result<Json, Fault>)
      requires Valid()
      modifies this
      ensures (State(), r) == CreateStep(old(State()), ns, code, p, password, resetToken, now, actor, fault)
      ensures Valid()
    {
      CreateKeepsValid(State(), ns, code, p, password, resetToken, now, actor, fault);
      var doc := CreateDocument(code, p, password, resetToken, now);
      var u := doc.Snapshot();
      var e := Persist(u, true, Created, actor, fault);
      if e.Some? {
        r := Err(TranslateCreateError(e.value));
      } else {
        r := Ok(ToJSON(u));
      }
    }

    /** The `update` action. */
    method Update(code: string, p: UserParams, actor: Option<string>, fault: Option<StoreError>)
      returns (r: Result<Json, Fault>)
      requires Valid()
      modifies this
      ensures (State(), r) == UpdateStep(old(State()), ns, code, p, actor, fault)
      ensures Valid()
    {
      UpdateKeepsValid(State(), ns, code, p, actor, fault);
      var found := Find(records, code);
      if found.None? {
        r := Err(NotFound(UserNotFound));
        return;
      }
      var doc := PatchedDocument(found.value, p);
      var v := doc.Snapshot();
      var e := Persist(v, false, Updated, actor, fault);
      if e.Some? {
        r := Err(TranslateUpdateError(e.value));
      } else {
        r := Ok(ToJSON(v));
      }
    }

    /** The `remove` action: `fault` is a failure of the delete. */
    method Remove(code: string, actor: Option<string>, fault: Option<StoreError>)
      returns (r: Result<Json, Fault>)
      requires Valid()
      modifies this
      ensures (State(), r) == RemoveStep(old(State()), code, actor, fault)
      ensures Valid()
    {
      RemoveKeepsValid(State(), code, actor, fault);
      ghost var s0 := State();
      var m := Model(code);
      assert (State(), m) == ModelStep(s0, code);
      if m.None? {
        r := Err(NotFound(UserNotFound));
      } else if fault.Some? {
        r := Err(Rethrown(fault.value));
        assert RemoveStep(s0, code, actor, fault) == (State(), r);
      } else {
        ghost var s1 := State();
        records := Delete(records, code);
        var json := ToJSON(m.value);
        Notify(Removed, json, actor);
        ClearCache();
        r := Ok(json);
        assert State() == Committed(s1, Delete(s1.records, code), Removed, json, actor);
        assert RemoveStep(s0, code, actor, fault) == (State(), r);
      }
    }
  }
}
