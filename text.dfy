/**
 * The few Python string operations the backend relies on: `str.lower`, `str.upper`
 * (ASCII letters only), `str.strip` with no argument, `" ".join`, the substring test
 * `key in host`, and the decimal rendering of an integer.
 */
module Text {

  /** The characters `str.strip()` removes, restricted to ASCII. */
  predicate IsSpace(c: char)
  {
    c == ' ' || c == '\t' || c == '\n' || c == '\r' || c == '\U{000B}' || c == '\U{000C}' ||
    ('\U{001C}' <= c <= '\U{001F}')
  }

  predicate IsUpperAscii(c: char) { 'A' <= c <= 'Z' }

  predicate IsLowerAscii(c: char) { 'a' <= c <= 'z' }

  /** The lower-case letter of an ASCII capital, 32 code points on; any other character unchanged. */
  function LowerChar(c: char): (d: char)
    ensures !IsUpperAscii(d)
    ensures IsUpperAscii(c) ==> IsLowerAscii(d) && d as int == c as int + 32
    ensures !IsUpperAscii(c) ==> d == c
  {
    if IsUpperAscii(c) then (c as int + 32) as char else c
  }

  /** The capital of an ASCII lower-case letter, 32 code points back; any other character unchanged. */
  function UpperChar(c: char): (d: char)
    ensures !IsLowerAscii(d)
    ensures IsLowerAscii(c) ==> IsUpperAscii(d) && d as int == c as int - 32
    ensures !IsLowerAscii(c) ==> d == c
  {
    if IsLowerAscii(c) then (c as int - 32) as char else c
  }

  /** `s.lower()`: same length, each capital replaced by its own lower-case letter, every other character kept. */
  function Lower(s: string): (r: string)
    ensures |r| == |s|
    ensures forall i :: 0 <= i < |r| ==> !IsUpperAscii(r[i])
    ensures forall i :: 0 <= i < |r| ==> r[i] == LowerChar(s[i])
    ensures forall i :: 0 <= i < |r| && !IsUpperAscii(s[i]) ==> r[i] == s[i]
  {
    if s == [] then [] else [LowerChar(s[0])] + Lower(s[1..])
  }

  /** `s.upper()`: same length, each lower-case letter replaced by its own capital, every other character kept. */
  function Upper(s: string): (r: string)
    ensures |r| == |s|
    ensures forall i :: 0 <= i < |r| ==> !IsLowerAscii(r[i])
    ensures forall i :: 0 <= i < |r| ==> r[i] == UpperChar(s[i])
    ensures forall i :: 0 <= i < |r| && !IsLowerAscii(s[i]) ==> r[i] == s[i]
  {
    if s == [] then [] else [UpperChar(s[0])] + Upper(s[1..])
  }

  /** A string is the lower-casing of another exactly when it is so character by character. */
  lemma LowerEach(s: string, t: string)
    requires |s| == |t| && forall i :: 0 <= i < |s| ==> LowerChar(s[i]) == t[i]
    ensures Lower(s) == t
  {
  }

  /** Leading whitespace removed: a suffix of `s`, what was dropped is all whitespace, what is kept does not start with it. */
  function StripLeading(s: string): (r: string)
    ensures |r| <= |s| && r == s[|s| - |r|..]
    ensures r == [] || !IsSpace(r[0])
    ensures forall i :: 0 <= i < |s| - |r| ==> IsSpace(s[i])
  {
    if s != [] && IsSpace(s[0]) then StripLeading(s[1..]) else s
  }

  /** Trailing whitespace removed: a prefix of `s`, what was dropped is all whitespace, what is kept does not end with it. */
  function StripTrailing(s: string): (r: string)
    ensures |r| <= |s| && r == s[..|r|]
    ensures r == [] || !IsSpace(r[|r| - 1])
    ensures forall i :: |r| <= i < |s| ==> IsSpace(s[i])
  {
    if s != [] && IsSpace(s[|s| - 1]) then StripTrailing(s[..|s| - 1]) else s
  }

  /** A string that neither starts nor ends with whitespace. */
  predicate Trimmed(s: string)
  {
    s == [] || (!IsSpace(s[0]) && !IsSpace(s[|s| - 1]))
  }

  /** Stripping keeps one contiguous slice: a prefix of what follows the leading whitespace. */
  lemma StripSlice(s: string)
    ensures StripTrailing(StripLeading(s)) <= s[|s| - |StripLeading(s)|..]
  {
    var l := StripLeading(s);
    assert l == s[|s| - |l|..];
  }

  /** The slice stripping keeps neither starts nor ends with whitespace. */
  lemma StripSliceTrimmed(s: string)
    ensures Trimmed(StripTrailing(StripLeading(s)))
  {
    var l := StripLeading(s);
    var r := StripTrailing(l);
    assert r != [] ==> r[0] == l[0];
  }

  /** Everything after the kept slice is whitespace. */
  lemma StripSliceTail(s: string)
    ensures var lo := |s| - |StripLeading(s)|;
      forall i :: lo + |StripTrailing(StripLeading(s))| <= i < |s| ==> IsSpace(s[i])
  {
    var l := StripLeading(s);
    var lo := |s| - |l|;
    var r := StripTrailing(l);
    forall i | lo + |r| <= i < |s|
      ensures IsSpace(s[i])
    {
      assert s[i] == l[i - lo];
    }
  }

  /**
   * `s.strip()`: a contiguous slice of `s` (a prefix of one of its suffixes) that is itself
   * trimmed, with only whitespace dropped on either side of it.
   */
  function Strip(s: string): (r: string)
    ensures Trimmed(r)
    ensures var lo := |s| - |StripLeading(s)|;
      r <= s[lo..] &&
      (forall i :: 0 <= i < lo ==> IsSpace(s[i])) &&
      (forall i :: lo + |r| <= i < |s| ==> IsSpace(s[i]))
  {
    StripSlice(s);
    StripSliceTrimmed(s);
    StripSliceTail(s);
    StripTrailing(StripLeading(s))
  }

  /** Stripping a string that is already trimmed changes nothing. */
  lemma StripTrimmed(s: string)
    requires Trimmed(s)
    ensures Strip(s) == s
  {
    assert StripLeading(s) == s;
  }

  /** `(" " + s).strip()` gives back a trimmed, non-empty `s`. */
  lemma StripSpacePrefix(s: string)
    requires s != [] && Trimmed(s)
    ensures Strip(" " + s) == s
  {
    assert (" " + s)[1..] == s;
    assert StripLeading(" " + s) == StripLeading(s);
    StripTrimmed(s);
  }

  /** Stripping `p + t` keeps all of `p` in front when `p` is non-empty and trimmed. */
  lemma StripKeepsPrefix(p: string, t: string)
    requires p != [] && Trimmed(p)
    ensures p <= Strip(p + t)
  {
    var s := p + t;
    assert s[0] == p[0];
    assert StripLeading(s) == s;
    var r := StripTrailing(s);
    assert s[|p| - 1] == p[|p| - 1];
    assert !IsSpace(s[|p| - 1]);
    assert |r| >= |p|;
    assert r[..|p|] == s[..|p|] == p;
  }

  /**
   * `sep.join(parts)`: empty for no parts, the part itself for one; otherwise it opens with the
   * first part and closes with the last.
   */
  function Join(parts: seq<string>, sep: string): (r: string)
    ensures parts == [] ==> r == ""
    ensures parts != [] ==> parts[0] <= r
    ensures |parts| == 1 ==> r == parts[0]
    ensures parts != [] ==> |parts[|parts| - 1]| <= |r| && r[|r| - |parts[|parts| - 1]|..] == parts[|parts| - 1]
  {
    if |parts| == 0 then ""
    else if |parts| == 1 then parts[0]
    else parts[0] + sep + Join(parts[1..], sep)
  }

  /** Stripping a join keeps a non-empty, trimmed first part in front. */
  lemma StripJoinKeepsFirst(parts: seq<string>, sep: string)
    requires parts != [] && parts[0] != [] && Trimmed(parts[0])
    ensures parts[0] <= Strip(Join(parts, sep))
  {
    var joined := Join(parts, sep);
    var p := parts[0];
    assert joined == p + joined[|p|..];
    StripKeepsPrefix(p, joined[|p|..]);
  }

  /** Joining one more part appends the separator and that part. */
  lemma {:induction false} JoinSnoc(parts: seq<string>, p: string, sep: string)
    requires parts != []
    ensures Join(parts + [p], sep) == Join(parts, sep) + sep + p
  {
    if |parts| == 1 {
      assert (parts + [p])[1..] == [p];
    } else {
      assert (parts + [p])[1..] == parts[1..] + [p];
      JoinSnoc(parts[1..], p, sep);
    }
  }

  /** Python's `key in host` on strings: `key` occurs in `host` starting at some position. */
  predicate Contains(host: string, key: string)
  {
    key <= host || (host != [] && Contains(host[1..], key))
  }

  lemma {:induction false} ContainsIff(host: string, key: string)
    ensures Contains(host, key) <==> exists i :: 0 <= i <= |host| && key <= host[i..]
  {
    if host == [] {
      assert host[0..] == host;
    } else {
      ContainsIff(host[1..], key);
      assert host[0..] == host;
      forall i | 1 <= i <= |host|
        ensures host[i..] == host[1..][i - 1..]
      {
      }
      if Contains(host[1..], key) {
        var j :| 0 <= j <= |host[1..]| && key <= host[1..][j..];
        assert key <= host[j + 1..];
      }
    }
  }

  /** A key whose first character appears nowhere in `host` does not occur in it. */
  lemma {:induction false} AbsentFirstChar(host: string, key: string)
    requires key != [] && key[0] !in host
    ensures !Contains(host, key)
  {
    if host != [] {
      assert host == [host[0]] + host[1..];
      AbsentFirstChar(host[1..], key);
    }
  }

  function DigitChar(d: nat): (c: char)
    requires d < 10
    ensures '0' <= c <= '9'
  {
    "0123456789"[d]
  }

  /** The decimal digits of `n`, most significant first, without leading zeros. */
  function DigitsText(n: nat): (r: string)
    ensures r != []
    ensures forall i :: 0 <= i < |r| ==> '0' <= r[i] <= '9'
    ensures |r| > 1 ==> r[0] != '0'
    decreases n
  {
    if n < 10 then [DigitChar(n)] else DigitsText(n / 10) + [DigitChar(n % 10)]
  }

  /** `str(n)` for an integer. */
  function IntText(n: int): (r: string)
    ensures r != []
    ensures (r[0] == '-') <==> n < 0
  {
    if n < 0 then "-" + DigitsText(-n) else DigitsText(n)
  }
}
