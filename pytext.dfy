/** The handful of Python `str` and `int` built-ins the bot relies on, written out:
    `str.strip()`, `str.split(sep)`, `str.split()`, `str.partition(sep)`,
    `sep.join(parts)`, `str(n)` for an integer and `int(token)`.

    Simplification: `int(token)` accepts an optional sign followed by one or more
    ASCII digits (no surrounding whitespace, no underscores, no other digits). */
module PyText {
  import opened Wrappers

  /** `c.isspace()`, the whitespace `strip()` and `split()` use: tab through
      carriage return, the four ASCII separators U+001C..U+001F, space, U+0085,
      no-break space, and the Unicode space separators. */
  predicate IsSpace(c: char) {
    ('\t' <= c <= '\r') || ('\U{1C}' <= c <= ' ') || c == '\U{85}' || c == '\U{A0}' || c == '\U{1680}'
    || ('\U{2000}' <= c <= '\U{200A}') || c == '\U{2028}' || c == '\U{2029}' || c == '\U{202F}' || c == '\U{205F}'
    || c == '\U{3000}'
  }

  function TrimStart(s: string): (r: string)
    ensures |r| <= |s| && r == s[|s| - |r|..]
    ensures r == [] || !IsSpace(r[0])
  {
    if |s| > 0 && IsSpace(s[0]) then TrimStart(s[1..]) else s
  }

  function TrimEnd(s: string): (r: string)
    ensures |r| <= |s| && r == s[..|r|]
    ensures r == [] || !IsSpace(r[|r| - 1])
  {
    if |s| > 0 && IsSpace(s[|s| - 1]) then TrimEnd(s[..|s| - 1]) else s
  }

  /** `s.strip()`. */
  function Strip(s: string): (r: string)
    ensures |r| <= |s|
    ensures r == [] || (!IsSpace(r[0]) && !IsSpace(r[|r| - 1]))
  {
    var t := TrimStart(s);
    var r := TrimEnd(t);
    assert r == [] || r[0] == t[0];
    r
  }

  /** Index of the first occurrence of `c` in `s`. */
  function IndexOf(s: string, c: char): (k: nat)
    requires c in s
    ensures k < |s| && s[k] == c && c !in s[..k]
  {
    if s[0] == c then 0 else
      var k := 1 + IndexOf(s[1..], c);
      assert s[..k] == [s[0]] + s[1..][..k - 1];
      k
  }

  /** `s.split(sep)` for a one-character separator: never empty, and no part holds `sep`. */
  function SplitOn(s: string, sep: char): (parts: seq<string>)
    ensures |parts| >= 1
    ensures forall i :: 0 <= i < |parts| ==> sep !in parts[i]
    decreases |s|
  {
    if sep in s then
      var k := IndexOf(s, sep);
      [s[..k]] + SplitOn(s[k + 1..], sep)
    else
      [s]
  }

  /** `sep.join(parts)`. */
  function Join(parts: seq<string>, sep: string): string {
    if |parts| == 0 then ""
    else if |parts| == 1 then parts[0]
    else parts[0] + sep + Join(parts[1..], sep)
  }

  /** Splitting on a character and joining back with it gives the original string,
      so `SplitOn` loses nothing. */
  lemma {:induction false} JoinSplitOn(s: string, sep: char)
    ensures Join(SplitOn(s, sep), [sep]) == s
    decreases |s|
  {
    if sep in s {
      var k := IndexOf(s, sep);
      var rest := s[k + 1..];
      JoinSplitOn(rest, sep);
      assert SplitOn(s, sep)[1..] == SplitOn(rest, sep);
      assert s == s[..k] + [sep] + rest;
    }
  }

  /** `split` cuts at the first separator. */
  lemma SplitOnCons(p: string, sep: char, rest: string)
    requires sep !in p
    ensures SplitOn(p + [sep] + rest, sep) == [p] + SplitOn(rest, sep)
  {
    var s := p + [sep] + rest;
    assert s[|p|] == sep;
    var k := IndexOf(s, sep);
    assert s[..k] == p;
    assert s[k + 1..] == rest;
  }

  /** Joining parts that hold no `sep` and splitting again gives the parts back. */
  lemma {:induction false} SplitOnJoin(parts: seq<string>, sep: char)
    requires |parts| >= 1
    requires forall i :: 0 <= i < |parts| ==> sep !in parts[i]
    ensures SplitOn(Join(parts, [sep]), sep) == parts
    decreases |parts|
  {
    if |parts| > 1 {
      var rest := Join(parts[1..], [sep]);
      assert Join(parts, [sep]) == parts[0] + [sep] + rest;
      SplitOnJoin(parts[1..], sep);
      SplitOnCons(parts[0], sep, rest);
      assert parts == [parts[0]] + parts[1..];
    }
  }

  /** `strip()` leaves a word alone. */
  lemma StripWord(w: string)
    requires IsWord(w)
    ensures Strip(w) == w
  {
  }

  /** `s.partition(sep)`: the text before the first `sep`, whether `sep` occurs, and the text after it. */
  function Partition(s: string, sep: char): (r: (string, bool, string))
    ensures r.1 <==> sep in s
    ensures r.1 ==> s == r.0 + [sep] + r.2 && sep !in r.0
    ensures !r.1 ==> r.0 == s && r.2 == ""
  {
    if sep in s then
      var k := IndexOf(s, sep);
      assert s == s[..k] + [sep] + s[k + 1..];
      (s[..k], true, s[k + 1..])
    else
      (s, false, "")
  }

  /** The first field of `s.split(sep)` is the head of `s.partition(sep)`. */
  lemma SplitHeadIsPartitionHead(s: string, sep: char)
    ensures SplitOn(s, sep)[0] == Partition(s, sep).0
  {
  }

  /** The longest prefix of `s` holding no whitespace. */
  function TakeWord(s: string): (w: string)
    ensures |w| <= |s| && w == s[..|w|]
    ensures forall i :: 0 <= i < |w| ==> !IsSpace(w[i])
    ensures |w| < |s| ==> IsSpace(s[|w|])
    ensures |s| > 0 && !IsSpace(s[0]) ==> |w| > 0
  {
    if |s| == 0 || IsSpace(s[0]) then "" else
      var w := [s[0]] + TakeWord(s[1..]);
      assert w == s[..|w|];
      w
  }

  /** A non-empty run of non-whitespace characters. */
  predicate IsWord(w: string) {
    w != [] && forall j :: 0 <= j < |w| ==> !IsSpace(w[j])
  }

  /** `s.split()` with no argument: the maximal runs of non-whitespace, in order. */
  function Words(s: string): seq<string>
    decreases |s|
  {
    var t := TrimStart(s);
    if |t| == 0 then [] else
      var w := TakeWord(t);
      [w] + Words(t[|w|..])
  }

  /** A word followed by the end or by whitespace is what `TakeWord` takes. */
  lemma {:induction false} TakeWordOfWord(w: string, rest: string)
    requires forall j :: 0 <= j < |w| ==> !IsSpace(w[j])
    requires rest == [] || IsSpace(rest[0])
    ensures TakeWord(w + rest) == w
    decreases |w|
  {
    if w != [] {
      TakeWordOfWord(w[1..], rest);
      assert (w + rest)[1..] == w[1..] + rest;
    }
  }

  /** `split()` of a word followed by the end or by whitespace starts with that word. */
  lemma WordsOfWordThen(s: string, w: string, rest: string)
    requires IsWord(w)
    requires rest == [] || IsSpace(rest[0])
    requires s == w + rest
    ensures Words(s) == [w] + Words(rest)
  {
    TakeWordOfWord(w, rest);
    assert TrimStart(s) == s;
    assert s[|w|..] == rest;
  }

  /** Leading whitespace does not change `split()`. */
  lemma WordsSkipSpace(s: string, x: string)
    requires s == " " + x
    ensures Words(s) == Words(x)
  {
    assert s[1..] == x;
    assert TrimStart(s) == TrimStart(x);
  }

  /** `split()` of a word, a space and more text. */
  lemma WordsCons(s: string, w: string, rest: string)
    requires IsWord(w)
    requires s == w + " " + rest
    ensures Words(s) == [w] + Words(rest)
  {
    var spaced := " " + rest;
    assert s == w + spaced;
    WordsOfWordThen(s, w, spaced);
    WordsSkipSpace(spaced, rest);
  }

  /** `split()` of a single word. */
  lemma WordsOfOne(w: string)
    requires IsWord(w)
    ensures Words(w) == [w]
  {
    assert w == w + "";
    WordsOfWordThen(w, w, "");
  }

  /** One step of `WordsOfJoin`: a word in front of already-split words. */
  lemma WordsOfJoinStep(ws: seq<string>)
    requires |ws| > 1 && IsWord(ws[0])
    requires Words(Join(ws[1..], " ")) == ws[1..]
    ensures Words(Join(ws, " ")) == ws
  {
    WordsCons(Join(ws, " "), ws[0], Join(ws[1..], " "));
    assert ws == [ws[0]] + ws[1..];
  }

  /** `split()` undoes `" ".join(words)`. */
  lemma {:induction false} WordsOfJoin(ws: seq<string>)
    requires forall i :: 0 <= i < |ws| ==> IsWord(ws[i])
    ensures Words(Join(ws, " ")) == ws
    decreases |ws|
  {
    if |ws| == 1 {
      WordsOfOne(ws[0]);
    } else if |ws| > 1 {
      WordsOfJoin(ws[1..]);
      WordsOfJoinStep(ws);
    }
  }

  predicate IsDigit(c: char) {
    '0' <= c <= '9'
  }

  predicate AllDigits(s: string) {
    |s| > 0 && forall i :: 0 <= i < |s| ==> IsDigit(s[i])
  }

  function DigitChar(d: nat): (c: char)
    requires d < 10
    ensures IsDigit(c)
  {
    ('0' as int + d) as char
  }

  /** The value of a run of decimal digits, most significant first. */
  function DigitsValue(s: string): nat
    requires AllDigits(s)
  {
    var last := (s[|s| - 1] as int) - ('0' as int);
    if |s| == 1 then last else DigitsValue(s[..|s| - 1]) * 10 + last
  }

  /** Decimal digits of a natural number, no leading zeros. */
  function NatToStr(n: nat): (s: string)
    ensures AllDigits(s)
  {
    if n < 10 then [DigitChar(n)] else NatToStr(n / 10) + [DigitChar(n % 10)]
  }

  /** `str(n)` for a Python `int`. */
  function IntToStr(n: int): string {
    if n < 0 then "-" + NatToStr(-n) else NatToStr(n)
  }

  /** `int(token)`, simplified to an optional sign followed by decimal digits;
      `None` stands for the `ValueError` Python raises. */
  function ParseInt(s: string): (r: Option<int>)
    ensures r.Some? ==> |s| > 0
  {
    if |s| > 0 && (s[0] == '-' || s[0] == '+') then
      if AllDigits(s[1..]) then
        var v: int := DigitsValue(s[1..]);
        Some(if s[0] == '-' then -v else v)
      else None
    else if AllDigits(s) then Some(DigitsValue(s))
    else None
  }

  lemma {:induction false} DigitsValueOfNatToStr(n: nat)
    ensures DigitsValue(NatToStr(n)) == n
  {
    if n >= 10 {
      DigitsValueOfNatToStr(n / 10);
      var s := NatToStr(n);
      assert s[..|s| - 1] == NatToStr(n / 10);
    }
  }

  /** `int(str(n)) == n`: the decimal rendering of an id parses back to the same id. */
  lemma ParseIntOfIntToStr(n: int)
    ensures ParseInt(IntToStr(n)) == Some(n)
  {
    if n < 0 {
      DigitsValueOfNatToStr(-n);
      assert IntToStr(n)[1..] == NatToStr(-n);
    } else {
      DigitsValueOfNatToStr(n);
    }
  }

  /** `str(n)` is a single word: a sign and digits, no whitespace. */
  lemma IntToStrIsWord(n: int)
    ensures IsWord(IntToStr(n))
  {
    var d := NatToStr(if n < 0 then -n else n);
    assert forall j :: 0 <= j < |d| ==> IsDigit(d[j]);
    if n < 0 {
      assert IntToStr(n) == "-" + d;
    }
  }

  /** Distinct ids have distinct decimal renderings. */
  lemma IntToStrInjective(a: int, b: int)
    ensures IntToStr(a) == IntToStr(b) ==> a == b
  {
    ParseIntOfIntToStr(a);
    ParseIntOfIntToStr(b);
  }
}
