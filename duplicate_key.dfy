/** Translation of a MongoDB duplicate-key error (code 11000) raised by
    `save` into the service's 400 / BAD_REQUEST error, as the `create` and
    `update` actions of the users service do it. The field name is taken
    from the driver's message text: the text after the first "index: ",
    cut at the first " dup key", then cut before its last "_". */
module DuplicateKey {
  import opened Wrappers
  import opened JsString

  const DuplicateKeyCode: int := 11000
  const IndexMarker: string := "index: "
  const DupKeyMarker: string := " dup key"
  const MsgCodePrefix: string := "DuplicateFieldError: "

  /** The error object a failed `save` rejects with: its `code` and
      `message` properties. */
  datatype StoreError = StoreError(code: int, message: string)

  /** The error the actions throw after translation: `status`, `type`,
      `msgCode`, `message` and the two entries of `params`. */
  datatype HttpError = HttpError(
    status: int,
    errType: string,
    msgCode: string,
    message: string,
    paramField: string,
    toastMessage: string)

  /** How an action of the service fails. */
  datatype Fault =
    | NotFound(msgCode: string)    // checkModel found no record
    | BadRequest(error: HttpError) // a translated duplicate-key error
    | TypeError                    // `.split` called on `undefined`
    | Rethrown(cause: StoreError)  // any other store error, unchanged

  /** `name.substring(0, name.lastIndexOf("_"))`: the index name without
      its last "_" and what follows; "" when there is no "_", because
      `substring(0, -1)` clamps to `substring(0, 0)`. */
  function FieldOfIndexName(name: string): (r: string)
    ensures '_' !in name ==> r == ""
    ensures '_' in name ==>
      && |r| < |name| && name[..|r|] == r && name[|r|] == '_'
      && forall j | |r| < j < |name| :: name[j] != '_'
  {
    var u := LastIndexOf(name, '_');
    SubstringFromZero(name, u);
    Substring(name, 0, u)
  }

  /** `s.substring(0, b)` is the prefix of length `b`, and "" for a
      negative `b`. */
  lemma SubstringFromZero(s: string, b: int)
    requires b <= |s|
    ensures Substring(s, 0, b) == if b < 0 then "" else s[..b]
  {
  }

  /** The field the service reads out of a duplicate-key message, or `None`
      when the message holds no "index: ", in which case
      `err.message.split("index: ")[1]` is `undefined` and the next
      `.split` throws. */
  function DuplicateField(message: string): (r: Option<string>)
    ensures r.None? <==> NoneIn(message, IndexMarker, 0, |message| + 1)
  {
    match SecondPiece(message, IndexMarker)
    case None => None
    case Some(piece) => Some(FieldOfIndexName(FirstPiece(piece, DupKeyMarker)))
  }

  /** The `catch` of `user.save()` in `create`. */
  function TranslateCreateError(err: StoreError): (f: Fault)
    ensures err.code != DuplicateKeyCode ==> f == Rethrown(err)
    ensures err.code == DuplicateKeyCode && DuplicateField(err.message).None? ==> f == TypeError
    ensures err.code == DuplicateKeyCode && DuplicateField(err.message).Some? ==>
      var field := DuplicateField(err.message).value;
      f == BadRequest(HttpError(400, "BAD_REQUEST", MsgCodePrefix + field,
                                "Unable to create user, duplicate field: " + field, field,
                                "Unable to create user, duplicate field: " + field))
  {
    if err.code != DuplicateKeyCode then Rethrown(err)
    else match DuplicateField(err.message)
      case None => TypeError
      case Some(field) =>
        var text := "Unable to create user, duplicate field: " + field;
        BadRequest(HttpError(400, "BAD_REQUEST", MsgCodePrefix + field, text, field, text))
  }

  /** The `catch` of `doc.save()` in `update`: the same status, type and
      message code as in `create`, but `params.field` carries the message
      code, the message has no colon, and the toast message still says
      "create". */
  function TranslateUpdateError(err: StoreError): (f: Fault)
    ensures err.code != DuplicateKeyCode ==> f == Rethrown(err)
    ensures err.code == DuplicateKeyCode && DuplicateField(err.message).None? ==> f == TypeError
    ensures err.code == DuplicateKeyCode && DuplicateField(err.message).Some? ==>
      var field := DuplicateField(err.message).value;
      f == BadRequest(HttpError(400, "BAD_REQUEST", MsgCodePrefix + field,
                                "Unable to update user, duplicate field " + field,
                                MsgCodePrefix + field,
                                "Unable to create user, duplicate field: " + field))
  {
    if err.code != DuplicateKeyCode then Rethrown(err)
    else match DuplicateField(err.message)
      case None => TypeError
      case Some(field) =>
        BadRequest(HttpError(400, "BAD_REQUEST", MsgCodePrefix + field,
                             "Unable to update user, duplicate field " + field,
                             MsgCodePrefix + field,
                             "Unable to create user, duplicate field: " + field))
  }

  /** Both translations agree on everything but the payload: a 400
      BAD_REQUEST error whose message code names the same field, or the
      same crash, or the same rethrown error. */
  lemma TranslationsAgree(err: StoreError)
    ensures TranslateCreateError(err).BadRequest? <==> TranslateUpdateError(err).BadRequest?
    ensures TranslateCreateError(err).BadRequest? ==>
      var c, u := TranslateCreateError(err).error, TranslateUpdateError(err).error;
      && c.status == u.status == 400 && c.errType == u.errType == "BAD_REQUEST"
      && c.msgCode == u.msgCode == MsgCodePrefix + c.paramField
      && u.paramField == c.msgCode
    ensures !TranslateCreateError(err).BadRequest? ==> TranslateCreateError(err) == TranslateUpdateError(err)
  {
  }

  /** Only a duplicate-key error whose message names an index is turned
      into a 400; the translation crashes exactly when the message has no
      "index: ". */
  lemma TranslationCases(err: StoreError)
    ensures TranslateCreateError(err).BadRequest? <==>
      err.code == DuplicateKeyCode && !NoneIn(err.message, IndexMarker, 0, |err.message| + 1)
    ensures TranslateCreateError(err).TypeError? <==>
      err.code == DuplicateKeyCode && NoneIn(err.message, IndexMarker, 0, |err.message| + 1)
  {
  }

  /** An index name without "_" gives the empty field name, whatever
      follows " dup key", when "index: " does not occur in `<pre>`: the
      piece the service cuts out is a prefix of the name. */
  lemma NoUnderscoreGivesEmptyField(pre: string, name: string, post: string)
    requires Absent(pre, IndexMarker) && '_' !in name
    ensures DuplicateField(pre + IndexMarker + name + DupKeyMarker + post) == Some("")
  {
    var piece := PieceInSegment(pre, name, post);
    assert forall c | c in piece :: c in name;
  }

  /** The normal case: for a message "<pre>index: <name>_<suffix> dup key<post>"
      the field is `<name>`, whatever follows " dup key", provided "index: "
      does not occur in `<pre>`, the name has no space and the suffix has
      no "_". */
  lemma FieldOfMarkedIndex(pre: string, name: string, suffix: string, post: string)
    requires Absent(pre, IndexMarker)
    requires ' ' !in name && '_' !in suffix
    ensures DuplicateField(pre + IndexMarker + name + "_" + suffix + DupKeyMarker + post) == Some(name)
  {
    var seg := name + "_" + suffix;
    assert pre + IndexMarker + name + "_" + suffix + DupKeyMarker + post
        == pre + IndexMarker + seg + DupKeyMarker + post;
    var piece := PieceInSegment(pre, seg, post);
    assert seg[..|name|] == name && seg[|name|] == '_';
    PieceBeyond(pre, seg, post, |name|);
    var k := |piece| - |name| - 1;
    assert piece == name + "_" + suffix[..k] by {
      assert piece == seg[..|piece|];
    }
    assert forall c | c in suffix[..k] :: c in suffix;
    FieldOfNameSuffix(name, suffix[..k]);
  }

  /** Cutting "<name>_<suffix>" before its last "_" gives `name` when
      `suffix` has no "_". */
  lemma FieldOfNameSuffix(name: string, suffix: string)
    requires '_' !in suffix
    ensures FieldOfIndexName(name + "_" + suffix) == name
  {
    var seg := name + "_" + suffix;
    assert seg[|name|] == '_';
    assert LastIndexOf(seg, '_') == |name| by {
      forall j | |name| < j < |seg| ensures seg[j] != '_' {
        assert seg[j] == suffix[j - |name| - 1];
      }
    }
    SubstringFromZero(seg, |name|);
    assert seg[..|name|] == name;
  }

  /** `split("index: ")[1]` of "<pre>index: <rest>", when "index: " does
      not occur in `<pre>`: a prefix of `<rest>`, ended by the end of the
      text or by the next "index: ". */
  lemma AfterMarker(pre: string, rest: string) returns (sp: string)
    requires Absent(pre, IndexMarker)
    ensures SecondPiece(pre + IndexMarker + rest, IndexMarker) == Some(sp)
    ensures |sp| <= |rest| && sp == rest[..|sp|]
    ensures |sp| == |rest| || OccursAt(rest, IndexMarker, |sp|)
  {
    var msg := pre + IndexMarker + rest;
    var b := |pre| + |IndexMarker|;
    FirstMarkerAt(pre, rest);
    sp := PieceAfterFirst(msg, IndexMarker, |pre|);
    assert msg[b..] == rest;
  }


  /** The piece the service cuts out of "<pre>index: <seg> dup key<post>"
      is a prefix of `<seg>` when "index: " does not occur in `<pre>`. */
  lemma PieceInSegment(pre: string, seg: string, post: string) returns (piece: string)
    requires Absent(pre, IndexMarker)
    ensures SecondPiece(pre + IndexMarker + seg + DupKeyMarker + post, IndexMarker).Some?
    ensures piece == FirstPiece(SecondPiece(pre + IndexMarker + seg + DupKeyMarker + post, IndexMarker).value, DupKeyMarker)
    ensures |piece| <= |seg| && piece == seg[..|piece|]
  {
    var rest := seg + DupKeyMarker + post;
    assert pre + IndexMarker + seg + DupKeyMarker + post == pre + IndexMarker + rest;
    var sp := AfterMarker(pre, rest);
    piece := CutWithinSegment(sp, seg, post);
  }

  /** When the piece after "index: " is a prefix of "<seg> dup key<post>"
      ended by the end or by another "index: ", its text before
      " dup key" is a prefix of `<seg>`: no "index: " can start inside
      " dup key", which holds no 'i', so the piece runs past " dup key"
      or stops within `<seg>`. */
  lemma CutWithinSegment(sp: string, seg: string, post: string) returns (piece: string)
    requires |sp| <= |seg + DupKeyMarker + post| && sp == (seg + DupKeyMarker + post)[..|sp|]
    requires |sp| == |seg + DupKeyMarker + post| || OccursAt(seg + DupKeyMarker + post, IndexMarker, |sp|)
    ensures piece == FirstPiece(sp, DupKeyMarker)
    ensures |piece| <= |seg| && piece == seg[..|piece|]
  {
    var rest := seg + DupKeyMarker + post;
    var n := |seg|;
    NoMarkerInDupKey(seg, post);
    piece := FirstPiece(sp, DupKeyMarker);
    if n + |DupKeyMarker| <= |sp| {
      assert sp[n..n + |DupKeyMarker|] == rest[n..n + |DupKeyMarker|] == DupKeyMarker;
      assert OccursAt(sp, DupKeyMarker, n);
    }
    assert |piece| <= n;
    assert piece == sp[..|piece|] == rest[..|piece|] == seg[..|piece|];
  }

  /** "index: " cannot start inside the " dup key" that follows `<seg>`:
      " dup key" holds no 'i'. */
  lemma NoMarkerInDupKey(seg: string, post: string)
    ensures NoneIn(seg + DupKeyMarker + post, IndexMarker, |seg|, |seg| + |DupKeyMarker|)
  {
    var rest := seg + DupKeyMarker + post;
    forall j | |seg| <= j < |seg| + |DupKeyMarker| ensures !OccursAt(rest, IndexMarker, j) {
      assert rest[j] == DupKeyMarker[j - |seg|];
      if j + |IndexMarker| <= |rest| {
        assert rest[j..j + |IndexMarker|][0] == rest[j];
      }
    }
  }

  /** When `<seg>` has an "_" at `m` and no space before it, the piece the
      service cuts out is longer than `m`. */
  lemma PieceBeyond(pre: string, seg: string, post: string, m: nat)
    requires Absent(pre, IndexMarker)
    requires m < |seg| && seg[m] == '_' && ' ' !in seg[..m]
    ensures SecondPiece(pre + IndexMarker + seg + DupKeyMarker + post, IndexMarker).Some?
    ensures m < |FirstPiece(SecondPiece(pre + IndexMarker + seg + DupKeyMarker + post, IndexMarker).value, DupKeyMarker)|
  {
    var rest := seg + DupKeyMarker + post;
    assert pre + IndexMarker + seg + DupKeyMarker + post == pre + IndexMarker + rest;
    var sp := AfterMarker(pre, rest);
    CutBeyond(sp, seg, post, m);
  }

  /** Under the same conditions on the piece after "index: ", when
      `<seg>` has an "_" at `m` and no space before it, the text before
      " dup key" is longer than `m`: no "index: " starts before the "_"
      is passed, and no " dup key" before a space. */
  lemma CutBeyond(sp: string, seg: string, post: string, m: nat)
    requires |sp| <= |seg + DupKeyMarker + post| && sp == (seg + DupKeyMarker + post)[..|sp|]
    requires |sp| == |seg + DupKeyMarker + post| || OccursAt(seg + DupKeyMarker + post, IndexMarker, |sp|)
    requires m < |seg| && seg[m] == '_' && ' ' !in seg[..m]
    ensures m < |FirstPiece(sp, DupKeyMarker)|
  {
    var rest := seg + DupKeyMarker + post;
    assert rest[..m] == seg[..m] && rest[m] == '_';
    NoMarkerUpTo(rest, m);
    forall k | 0 <= k <= m && k < |sp| ensures sp[k] != ' ' {
      assert sp[k] == rest[k] == seg[k];
      if k < m { assert seg[k] == seg[..m][k]; }
    }
    assert m < |sp|;
    var piece := FirstPiece(sp, DupKeyMarker);
    var k := |piece|;
    assert piece == sp || sp[k] == ' ' by {
      if piece != sp {
        assert sp[k..k + |DupKeyMarker|][0] == sp[k];
      }
    }
  }

  /** No "index: " starts at or before `m` in a text with an "_" at `m`
      and no space before it: an occurrence needs a space six characters
      after its start, and has no "_". */
  lemma NoMarkerUpTo(t: string, m: nat)
    requires m < |t| && t[m] == '_' && ' ' !in t[..m]
    ensures NoneIn(t, IndexMarker, 0, m + 1)
  {
    forall j | 0 <= j < m + 1 ensures !OccursAt(t, IndexMarker, j) {
      if j + |IndexMarker| <= |t| {
        if j + 6 < m {
          assert t[j..j + 7][6] == t[j + 6] == t[..m][j + 6];
        } else {
          assert t[j..j + 7][m - j] == t[m];
        }
      }
    }
  }

  /** When "index: " does not occur in `pre`, the first "index: " of
      "<pre>index: <rest>" is the one after `pre`: "index: " cannot overlap
      itself, so no occurrence can start in `pre` and run into the
      marker. */
  lemma FirstMarkerAt(pre: string, rest: string)
    requires Absent(pre, IndexMarker)
    ensures OccursAt(pre + IndexMarker + rest, IndexMarker, |pre|)
    ensures NoneIn(pre + IndexMarker + rest, IndexMarker, 0, |pre|)
  {
    var msg := pre + IndexMarker + rest;
    assert msg[|pre|..|pre| + |IndexMarker|] == IndexMarker;
    forall j | 0 <= j < |pre| ensures !OccursAt(msg, IndexMarker, j) {
      if j + |IndexMarker| <= |pre| {
        assert msg[j..j + 7] == pre[j..j + 7];
        assert !OccursAt(pre, IndexMarker, j);
      } else if j + |IndexMarker| <= |msg| {
        var d := |pre| - j;
        assert msg[j..j + 7][d] == msg[|pre|] == 'i';
        assert IndexMarker[d] != 'i';
      }
    }
  }
}
