/** The users collection as the service sees it: records in insertion
    order, looked up by their external `code`; `save` writes a record by
    its code and is refused with a duplicate-key error (code 11000) when
    another record already holds the same email or username. */
module Store {
  import opened Wrappers
  import opened JsString
  import opened DuplicateKey
  import opened UserModel

  /** The record with the given code, if any (`resolveModel`). */
  function Find(records: seq<User>, code: string): (r: Option<User>)
    ensures r.Some? ==> r.value in records && r.value.code == code
    ensures r.None? <==> forall u :: u in records ==> u.code != code
  {
    if records == [] then None
    else if records[0].code == code then Some(records[0])
    else Find(records[1..], code)
  }

  /** `records` with every record whose code is `code` replaced by `u`. */
  function Replace(records: seq<User>, code: string, u: User): (r: seq<User>)
    requires u.code == code
    ensures |r| == |records|
    ensures Find(records, code).Some? ==> Find(r, code) == Some(u)
    ensures forall c :: c != code ==> Find(r, c) == Find(records, c)
  {
    if records == [] then []
    else [if records[0].code == code then u else records[0]] + Replace(records[1..], code, u)
  }

  /** `records` without the records whose code is `code` (`remove`). */
  function Delete(records: seq<User>, code: string): (r: seq<User>)
    ensures Find(r, code).None?
    ensures forall c :: c != code ==> Find(r, c) == Find(records, c)
    ensures forall u :: u in r ==> u in records
  {
    if records == [] then []
    else if records[0].code == code then Delete(records[1..], code)
    else [records[0]] + Delete(records[1..], code)
  }

  /** `save`: an update in place of the record with the same code, or an
      insertion at the end for a new code. */
  function Saved(records: seq<User>, u: User): (r: seq<User>)
    ensures Find(r, u.code) == Some(u)
    ensures forall c :: c != u.code ==> Find(r, c) == Find(records, c)
  {
    if Find(records, u.code).Some? then Replace(records, u.code, u)
    else
      AppendFind(records, u);
      records + [u]
  }

  lemma {:induction false} AppendFind(records: seq<User>, u: User)
    requires Find(records, u.code).None?
    ensures Find(records + [u], u.code) == Some(u)
    ensures forall c :: c != u.code ==> Find(records + [u], c) == Find(records, c)
  {
    if records != [] {
      assert (records + [u])[1..] == records[1..] + [u];
      AppendFind(records[1..], u);
    }
  }

  // ---------------------------------------------------------------------
  // Unique indexes

  /** The unique index (name and key value) on which `u` collides with
      `x`: `email_1` or `username_1`. A field that is not set collides
      with nothing. */
  function Clash(x: User, u: User): (r: Option<(string, string)>)
    ensures r.None? <==> (u.email.None? || x.email != u.email) && (u.username.None? || x.username != u.username)
  {
    if u.email.Some? && x.email == u.email then Some(("email_1", u.email.value))
    else if u.username.Some? && x.username == u.username then Some(("username_1", u.username.value))
    else None
  }

  /** The first collision of `u` with another record of the collection. */
  function Conflict(records: seq<User>, u: User): (r: Option<(string, string)>)
    ensures r.None? <==> forall x :: x in records && x.code != u.code ==> Clash(x, u).None?
    ensures r.Some? ==> exists x :: x in records && x.code != u.code && Clash(x, u) == r
  {
    if records == [] then None
    else if records[0].code != u.code && Clash(records[0], u).Some? then Clash(records[0], u)
    else Conflict(records[1..], u)
  }

  /** The collection's invariant: codes are distinct and no two records
      share an email or a username. */
  ghost predicate Unique(records: seq<User>) {
    forall i, j :: 0 <= i < j < |records| ==>
      records[i].code != records[j].code && Clash(records[i], records[j]).None?
  }

  /** In a collection without duplicate codes, every record is the one
      `resolveModel` finds for its own code. */
  lemma {:induction false} FindInUnique(records: seq<User>, i: nat)
    requires Unique(records) && i < |records|
    ensures Find(records, records[i].code) == Some(records[i])
  {
    if i > 0 {
      assert records[0].code != records[i].code;
      assert Unique(records[1..]) by {
        forall a, b | 0 <= a < b < |records[1..]|
          ensures records[1..][a].code != records[1..][b].code && Clash(records[1..][a], records[1..][b]).None?
        {
          assert records[1..][a] == records[a + 1] && records[1..][b] == records[b + 1];
        }
      }
      FindInUnique(records[1..], i - 1);
    }
  }

  const MessageHead: string := "E11000 duplicate key error collection: "

  /** The message MongoDB (3.0 and later) gives a duplicate-key error;
      `ns` is the collection's namespace. */
  function DuplicateKeyMessage(ns: string, index: string, value: string): string {
    MessageHead + ns + " index: " + index + " dup key: { : \"" + value + "\" }"
  }

  /** The name of the unique index MongoDB keeps on every document's
      identity. */
  const IdIndex: string := "_id_"

  /** How `save` of `u` fails, if it does: `fault` stands for any failure
      of the driver other than a unique index (validation, connection);
      otherwise a collision is reported with code 11000. A new document
      (`isNew`, as for `create`) is inserted, so an identity already held
      collides on the `_id_` index; an existing one is written in place. */
  function SaveError(ns: string, records: seq<User>, u: User, isNew: bool, fault: Option<StoreError>): (r: Option<StoreError>)
    ensures fault.Some? ==> r == fault
    ensures fault.None? ==>
      (r.None? <==> (!isNew || Find(records, u.code).None?) && Conflict(records, u).None?)
    ensures fault.None? && r.Some? ==> r.value.code == DuplicateKeyCode
    ensures fault.None? && isNew && Find(records, u.code).Some? ==>
      r == Some(StoreError(DuplicateKeyCode, DuplicateKeyMessage(ns, IdIndex, u.code)))
  {
    if fault.Some? then fault
    else if isNew && Find(records, u.code).Some? then
      Some(StoreError(DuplicateKeyCode, DuplicateKeyMessage(ns, IdIndex, u.code)))
    else match Conflict(records, u)
      case None => None
      case Some((index, value)) => Some(StoreError(DuplicateKeyCode, DuplicateKeyMessage(ns, index, value)))
  }

  /** The field the service reads out of MongoDB's message for an index
      `<name>_1` is `<name>`, when "index: " occurs nowhere in the
      namespace followed by a space (so the first "index: " of the
      message is the one MongoDB puts before the index name) and the
      index name has no space. */
  lemma DuplicateKeyMessageField(ns: string, name: string, value: string)
    requires Absent(ns + " ", IndexMarker) && ' ' !in name
    ensures DuplicateField(DuplicateKeyMessage(ns, name + "_1", value)) == Some(name)
  {
    assert name + "_1" == name + "_" + "1";
    MessageSplit(ns, name, "1", value);
    HeadAbsent(ns);
    FieldOfMarkedIndex(MessageHead + ns + " ", name, "1", MessageTail(value));
  }

  /** The field the service reads out of MongoDB's message for the
      identity index `_id_` is "_id". */
  lemma IdMessageField(ns: string, value: string)
    requires Absent(ns + " ", IndexMarker)
    ensures DuplicateField(DuplicateKeyMessage(ns, IdIndex, value)) == Some("_id")
  {
    assert IdIndex == "_id" + "_" + "";
    MessageSplit(ns, "_id", "", value);
    HeadAbsent(ns);
    FieldOfMarkedIndex(MessageHead + ns + " ", "_id", "", MessageTail(value));
  }

  /** The text after " dup key" in MongoDB's message. */
  function MessageTail(value: string): string {
    ": { : \"" + value + "\" }"
  }

  lemma MessageSplit(ns: string, name: string, suffix: string, value: string)
    ensures DuplicateKeyMessage(ns, name + "_" + suffix, value)
         == MessageHead + ns + " " + IndexMarker + name + "_" + suffix + DupKeyMarker + MessageTail(value)
  {
    assert " index: " == " " + IndexMarker;
    assert " dup key: { : \"" == DupKeyMarker + ": { : \"";
  }

  /** "index: " does not occur in the text MongoDB puts before the index
      name when it does not occur in the namespace followed by a space. */
  lemma HeadAbsent(ns: string)
    requires Absent(ns + " ", IndexMarker)
    ensures Absent(MessageHead + ns + " ", IndexMarker)
  {
    assert MessageHead + ns + " " == MessageHead + (ns + " ");
    forall j | 0 <= j < |MessageHead + ns + " "| + 1
      ensures !OccursAt(MessageHead + (ns + " "), IndexMarker, j)
    {
      NotInHead(ns + " ", j);
    }
  }

  /** No "index: " starts at `j` in the head followed by `t`: the fixed
      head has no 'x' and ends in "on: ", which holds no 'i'. */
  lemma NotInHead(t: string, j: nat)
    requires Absent(t, IndexMarker)
    ensures !OccursAt(MessageHead + t, IndexMarker, j)
  {
    var s := MessageHead + t;
    var h := |MessageHead|;
    if j + 7 <= |s| {
      HeadLetters();
      if j + 4 < h {
        assert s[j..j + 7][4] == MessageHead[j + 4];
      } else if j < h {
        assert s[j..j + 7][0] == MessageHead[j];
      } else {
        assert s[j..j + 7] == t[j - h..j - h + 7];
        assert !OccursAt(t, IndexMarker, j - h);
      }
    }
  }

  lemma HeadLetters()
    ensures forall k | 0 <= k < |MessageHead| :: MessageHead[k] != 'x'
    ensures forall k | |MessageHead| - 4 <= k < |MessageHead| :: MessageHead[k] != 'i'
  {
    assert MessageHead[|MessageHead| - 4..] == "on: ";
    forall k | |MessageHead| - 4 <= k < |MessageHead| ensures MessageHead[k] != 'i' {
      assert MessageHead[k] == MessageHead[|MessageHead| - 4..][k - (|MessageHead| - 4)];
    }
  }

  /** Saving a record that collides with no other keeps the collection's
      invariant. */
  lemma SavedKeepsUnique(records: seq<User>, u: User)
    requires Unique(records) && Conflict(records, u).None?
    ensures Unique(Saved(records, u))
  {
    var r := Saved(records, u);
    if Find(records, u.code).Some? {
      forall i, j | 0 <= i < j < |r|
        ensures r[i].code != r[j].code && Clash(r[i], r[j]).None?
      {
        ReplaceAt(records, u.code, u, i);
        ReplaceAt(records, u.code, u, j);
        assert records[i] in records && records[j] in records;
      }
    } else {
      forall i, j | 0 <= i < j < |r|
        ensures r[i].code != r[j].code && Clash(r[i], r[j]).None?
      {
        if j == |records| {
          assert r[i] == records[i] && r[j] == u;
          assert records[i] in records;
        }
      }
    }
  }

  lemma {:induction false} ReplaceAt(records: seq<User>, code: string, u: User, i: nat)
    requires u.code == code && i < |records|
    ensures Replace(records, code, u)[i] == if records[i].code == code then u else records[i]
  {
    if i > 0 {
      ReplaceAt(records[1..], code, u, i - 1);
    }
  }

  /** Deleting records keeps the collection's invariant. */
  lemma {:induction false} DeleteKeepsUnique(records: seq<User>, code: string)
    requires Unique(records)
    ensures Unique(Delete(records, code))
  {
    if records != [] {
      DeleteKeepsUnique(records[1..], code);
      var rest := Delete(records[1..], code);
      if records[0].code != code {
        forall y | y in rest ensures records[0].code != y.code && Clash(records[0], y).None? {
          HeadCompatible(records, y);
        }
        ConsKeepsUnique(records[0], rest);
      }
    }
  }

  /** A record that differs in code from every record of a collection
      without duplicates, and collides with none, can be put in front. */
  lemma ConsKeepsUnique(x: User, rest: seq<User>)
    requires Unique(rest)
    requires forall y | y in rest :: x.code != y.code && Clash(x, y).None?
    ensures Unique([x] + rest)
  {
    var r := [x] + rest;
    forall i, j | 0 <= i < j < |r|
      ensures r[i].code != r[j].code && Clash(r[i], r[j]).None?
    {
      if i == 0 {
        assert r[j] == rest[j - 1] && r[j] in rest;
      } else {
        assert r[i] == rest[i - 1] && r[j] == rest[j - 1];
      }
    }
  }

  /** The first record of a collection without duplicates differs in code
      from every later one and collides with none of them. */
  lemma HeadCompatible(records: seq<User>, y: User)
    requires Unique(records) && |records| > 0 && y in records[1..]
    ensures records[0].code != y.code && Clash(records[0], y).None?
  {
    var k :| 0 <= k < |records[1..]| && records[1..][k] == y;
    assert records[k + 1] == y;
  }
}
