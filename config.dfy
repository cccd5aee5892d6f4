/** `_parse_super_admins` of config.py: the operator ids of the
    `SUPER_ADMINS` setting, a comma-separated list. */
module Config {
  import opened Wrappers
  import opened PyText

  /** The id one token contributes: stripped, skipped when empty, skipped when
      it is not an integer. */
  function TokenId(token: string): Option<int> {
    var t := Strip(token);
    if t == "" then None else ParseInt(t)
  }

  /** The reading of each token, in order. */
  function TokenIds(tokens: seq<string>): (vals: seq<Option<int>>)
    ensures |vals| == |tokens|
    ensures forall i :: 0 <= i < |tokens| ==> vals[i] == TokenId(tokens[i])
  {
    seq(|tokens|, i requires 0 <= i < |tokens| => TokenId(tokens[i]))
  }

  /** The values of the readings that succeeded, in order, duplicates kept. */
  function Present(vals: seq<Option<int>>): seq<int> {
    if |vals| == 0 then []
    else Present(vals[..|vals| - 1]) + (match vals[|vals| - 1] case None => [] case Some(x) => [x])
  }

  /** Reading one more token adds its value, if any. */
  lemma PresentStep(vals: seq<Option<int>>, i: nat)
    requires i < |vals|
    ensures Present(vals[..i + 1]) == Present(vals[..i]) + (match vals[i] case None => [] case Some(x) => [x])
  {
    assert vals[..i + 1][..i] == vals[..i];
  }

  /** What `_parse_super_admins(raw)` returns. */
  function SuperAdminsOf(raw: Option<string>): seq<int> {
    if raw.None? || raw.value == "" then [] else Present(TokenIds(SplitOn(raw.value, ',')))
  }

  /** `_parse_super_admins`: the token loop. */
  method ParseSuperAdmins(raw: Option<string>) returns (result: seq<int>)
    ensures result == SuperAdminsOf(raw)
  {
    if raw.None? || raw.value == "" {
      return [];
    }
    var tokens := SplitOn(raw.value, ',');
    ghost var vals := TokenIds(tokens);
    result := [];
    var i := 0;
    while i < |tokens|
      invariant 0 <= i <= |tokens|
      invariant result == Present(vals[..i])
    {
      PresentStep(vals, i);
      assert vals[i] == TokenId(tokens[i]);
      var token := Strip(tokens[i]);
      if token != "" {
        var value := ParseInt(token);
        if value.Some? {
          result := result + [value.value];
        }
      }
      i := i + 1;
    }
    assert vals[..i] == vals;
  }

  /** No setting, or an empty one, means no operators. */
  lemma NoSettingNoAdmins()
    ensures SuperAdminsOf(None) == [] && SuperAdminsOf(Some("")) == []
  {
  }

  /** A value is kept exactly when some reading produced it. */
  lemma {:induction false} PresentMembership(vals: seq<Option<int>>, x: int)
    ensures x in Present(vals) <==> Some(x) in vals
    decreases |vals|
  {
    if |vals| > 0 {
      var init := vals[..|vals| - 1];
      PresentMembership(init, x);
      assert vals == init + [vals[|vals| - 1]];
    }
  }

  /** The values of two runs of readings are the values of each, in order: the
      parser keeps input order and duplicates. */
  lemma {:induction false} PresentAppend(a: seq<Option<int>>, b: seq<Option<int>>)
    ensures Present(a + b) == Present(a) + Present(b)
    decreases |b|
  {
    if |b| == 0 {
      assert a + b == a;
    } else {
      var init := b[..|b| - 1];
      PresentAppend(a, init);
      assert (a + b)[..|a + b| - 1] == a + init;
      assert (a + b)[|a + b| - 1] == b[|b| - 1];
    }
  }

  /** At most one value per reading. */
  lemma {:induction false} PresentLength(vals: seq<Option<int>>)
    ensures |Present(vals)| <= |vals|
    decreases |vals|
  {
    if |vals| > 0 {
      PresentLength(vals[..|vals| - 1]);
    }
  }

  /** A reading is among the readings exactly when some token reads as it. */
  lemma TokenIdsMembership(tokens: seq<string>, x: int)
    ensures Some(x) in TokenIds(tokens) <==> exists i :: 0 <= i < |tokens| && TokenId(tokens[i]) == Some(x)
  {
    var vals := TokenIds(tokens);
    if Some(x) in vals {
      var i :| 0 <= i < |vals| && vals[i] == Some(x);
      assert TokenId(tokens[i]) == Some(x);
    }
  }

  /** An id is listed exactly when reading some comma-separated token gives
      it (by `TokenIdsMembership`: when some token, stripped, is that integer):
      bad tokens are skipped rather than rejected, and nothing is invented. */
  lemma SuperAdminsMembership(raw: string, x: int)
    ensures x in SuperAdminsOf(Some(raw)) <==> raw != "" && Some(x) in TokenIds(SplitOn(raw, ','))
  {
    if raw != "" {
      PresentMembership(TokenIds(SplitOn(raw, ',')), x);
    }
  }

  /** A run of successful readings gives back its values. */
  lemma {:induction false} PresentOfSomes(ids: seq<int>, vals: seq<Option<int>>)
    requires |vals| == |ids| && forall i :: 0 <= i < |ids| ==> vals[i] == Some(ids[i])
    ensures Present(vals) == ids
    decreases |ids|
  {
    if |ids| > 0 {
      var n := |ids| - 1;
      PresentOfSomes(ids[..n], vals[..n]);
      assert ids == ids[..n] + [ids[n]];
    }
  }

  /** The decimal texts of a list of ids. */
  function IdTexts(ids: seq<int>): (texts: seq<string>)
    ensures |texts| == |ids|
    ensures forall i :: 0 <= i < |ids| ==> texts[i] == IntToStr(ids[i])
  {
    seq(|ids|, i requires 0 <= i < |ids| => IntToStr(ids[i]))
  }

  /** A decimal id never holds a `,`. */
  lemma NoCommaInId(n: int)
    ensures ',' !in IntToStr(n)
  {
    var d := NatToStr(if n < 0 then -n else n);
    assert forall j :: 0 <= j < |d| ==> IsDigit(d[j]);
    if n < 0 {
      assert IntToStr(n) == "-" + d;
    }
  }

  /** Each id's own text reads back as that id. */
  lemma TokenIdOfIntToStr(n: int)
    ensures TokenId(IntToStr(n)) == Some(n)
  {
    IntToStrIsWord(n);
    StripWord(IntToStr(n));
    ParseIntOfIntToStr(n);
  }

  /** Writing any list of ids as `SUPER_ADMINS="id,id,..."` and parsing it
      gives back the same list, in the same order. */
  lemma SuperAdminsRoundTrip(ids: seq<int>)
    ensures SuperAdminsOf(Some(Join(IdTexts(ids), ","))) == ids
  {
    var texts := IdTexts(ids);
    if |ids| == 0 {
      return;
    }
    forall i | 0 <= i < |texts|
      ensures ',' !in texts[i]
    {
      NoCommaInId(ids[i]);
    }
    SplitOnJoin(texts, ',');
    var vals := TokenIds(texts);
    forall i | 0 <= i < |ids|
      ensures vals[i] == Some(ids[i])
    {
      TokenIdOfIntToStr(ids[i]);
    }
    PresentOfSomes(ids, vals);
    IntToStrIsWord(ids[0]);
  }

}
