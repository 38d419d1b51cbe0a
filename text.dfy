/** The few Python string operations the server relies on: str.isspace,
    str.strip, str.startswith, str.split(sep, 1), the `in` test and the
    comparison of str.upper() with an upper-case ASCII keyword. */
module Text {

  /** Python's str.isspace() for one character: the ASCII controls
      \t \n \v \f \r, the separators U+001C..U+001F, the space, and the
      Unicode spaces U+0085, U+00A0, U+1680, U+2000..U+200A, U+2028,
      U+2029, U+202F, U+205F and U+3000. */
  predicate IsSpace(c: char) {
    || c == ' '
    || '\t' <= c <= '\r'
    || '\U{1C}' <= c <= '\U{1F}'
    || c == '\U{85}' || c == '\U{A0}' || c == '\U{1680}'
    || '\U{2000}' <= c <= '\U{200A}'
    || c == '\U{2028}' || c == '\U{2029}' || c == '\U{202F}'
    || c == '\U{205F}' || c == '\U{3000}'
  }

  /** Every character of s is whitespace. */
  predicate AllSpace(s: string) {
    forall k :: 0 <= k < |s| ==> IsSpace(s[k])
  }

  /** Every character of s from index lo up to hi is whitespace. */
  predicate SpaceIn(s: string, lo: nat, hi: nat)
    requires hi <= |s|
  {
    forall k :: lo <= k < hi ==> IsSpace(s[k])
  }

  /** s.lstrip(): the suffix of s left after dropping its leading
      whitespace, which is all that is dropped; it is empty exactly when s
      is all whitespace. */
  function LStrip(s: string): (r: string)
    ensures |r| <= |s| && r == s[|s| - |r|..]
    ensures SpaceIn(s, 0, |s| - |r|)
    ensures r != [] ==> !IsSpace(r[0])
    ensures r == [] <==> AllSpace(s)
  {
    if s != [] && IsSpace(s[0]) then
      var r := LStrip(s[1..]);
      SpaceHead(s, |s| - 1 - |r|);
      r
    else
      assert s == [] || !IsSpace(s[0]);
      s
  }

  /** s.rstrip(): the prefix of s left after dropping its trailing
      whitespace, which is all that is dropped; it is empty exactly when s
      is all whitespace. */
  function RStrip(s: string): (r: string)
    ensures |r| <= |s| && r == s[..|r|]
    ensures SpaceIn(s, |r|, |s|)
    ensures r != [] ==> !IsSpace(r[|r| - 1])
    ensures r == [] <==> AllSpace(s)
  {
    if s != [] && IsSpace(s[|s| - 1]) then
      var r := RStrip(s[..|s| - 1]);
      SpaceLast(s, |r|);
      r
    else
      assert s == [] || !IsSpace(s[|s| - 1]);
      s
  }

  /** s.strip(): s without its leading and trailing whitespace. The result
      is the slice of s that starts where lstrip starts, and only
      whitespace comes before and after it; it is empty exactly when s is
      all whitespace. */
  function Strip(s: string): (r: string)
    ensures var i := |s| - |LStrip(s)|;
      && i + |r| <= |s| && r == s[i..i + |r|]
      && SpaceIn(s, 0, i) && SpaceIn(s, i + |r|, |s|)
    ensures r != [] ==> !IsSpace(r[0]) && !IsSpace(r[|r| - 1])
    ensures r == [] <==> AllSpace(s)
  {
    var l := LStrip(s);
    var r := RStrip(l);
    StripSlice(s, l, r);
    r
  }

  /** Where rstrip(lstrip(s)) sits in s. */
  lemma StripSlice(s: string, l: string, r: string)
    requires |l| <= |s| && l == s[|s| - |l|..]
    requires |r| <= |l| && r == l[..|r|] && SpaceIn(l, |r|, |l|)
    ensures var i := |s| - |l|;
      && i + |r| <= |s| && r == s[i..i + |r|] && SpaceIn(s, i + |r|, |s|)
      && (r != [] ==> r[0] == l[0])
  {
    var i := |s| - |l|;
    forall k | i + |r| <= k < |s| ensures IsSpace(s[k]) {
      assert s[k] == l[k - i];
    }
  }

  /** A leading whitespace character extends the whitespace run of the
      rest by one, and does not change whether the text is all whitespace. */
  lemma SpaceHead(s: string, n: nat)
    requires s != [] && IsSpace(s[0]) && n < |s| && SpaceIn(s[1..], 0, n)
    ensures SpaceIn(s, 0, n + 1)
    ensures AllSpace(s) <==> AllSpace(s[1..])
  {
    forall k | 1 <= k < n + 1 ensures IsSpace(s[k]) {
      assert s[k] == s[1..][k - 1];
    }
    if AllSpace(s[1..]) {
      forall k | 1 <= k < |s| ensures IsSpace(s[k]) {
        assert s[k] == s[1..][k - 1];
      }
    }
  }

  /** The same at the end of the text. */
  lemma SpaceLast(s: string, n: nat)
    requires s != [] && IsSpace(s[|s| - 1]) && n <= |s| - 1 && SpaceIn(s[..|s| - 1], n, |s| - 1)
    ensures SpaceIn(s, n, |s|)
    ensures AllSpace(s) <==> AllSpace(s[..|s| - 1])
  {
    forall k | n <= k < |s| - 1 ensures IsSpace(s[k]) {
      assert s[k] == s[..|s| - 1][k];
    }
    if AllSpace(s[..|s| - 1]) {
      forall k | 0 <= k < |s| - 1 ensures IsSpace(s[k]) {
        assert s[k] == s[..|s| - 1][k];
      }
    }
  }

  /** Whitespace followed by a text that does not start with whitespace
      lstrips to that text: lstrip drops exactly the leading whitespace. */
  lemma LStripExactly(a: string, t: string)
    requires AllSpace(a) && (t == [] || !IsSpace(t[0]))
    ensures LStrip(a + t) == t
  {
    var s := a + t;
    var r := LStrip(s);
    var k := |s| - |r|;
    if t == [] {
      assert s == a;
    } else {
      assert s[|a|] == t[0];
      assert !AllSpace(s) by { assert !IsSpace(s[|a|]); }
      assert r[0] == s[k];
      assert k == |a|;
      assert s[|a|..] == t;
    }
  }

  /** A text that does not end with whitespace, followed by whitespace,
      rstrips to that text. */
  lemma RStripExactly(t: string, b: string)
    requires AllSpace(b) && (t == [] || !IsSpace(t[|t| - 1]))
    ensures RStrip(t + b) == t
  {
    var s := t + b;
    var r := RStrip(s);
    if t == [] {
      assert s == b;
    } else {
      var j := |t| - 1;
      assert s[j] == t[j];
      assert !AllSpace(s) by { assert !IsSpace(s[j]); }
      assert r[|r| - 1] == s[|r| - 1];
      assert |r| == |t|;
      assert s[..|t|] == t;
    }
  }

  /** strip takes off exactly the whitespace at both ends: whitespace, a
      text that neither starts nor ends with whitespace, and whitespace
      again strip to that text. */
  lemma StripExactly(a: string, t: string, b: string)
    requires AllSpace(a) && AllSpace(b)
    requires t == [] || (!IsSpace(t[0]) && !IsSpace(t[|t| - 1]))
    ensures Strip(a + t + b) == t
  {
    if t == [] {
      var s := a + t + b;
      assert s == a + b;
      forall k | 0 <= k < |s| ensures IsSpace(s[k]) {
        if k < |a| { assert s[k] == a[k]; } else { assert s[k] == b[k - |a|]; }
      }
    } else {
      assert a + t + b == a + (t + b);
      LStripExactly(a, t + b);
      RStripExactly(t, b);
    }
  }

  /** lstrip leaves a text that starts with non-whitespace unchanged. */
  lemma LStripKeeps(s: string)
    requires s != [] && !IsSpace(s[0])
    ensures LStrip(s) == s && Strip(s) == RStrip(s)
  {
  }

  /** rstrip leaves a text that ends in non-whitespace unchanged. */
  lemma RStripKeeps(s: string)
    requires s != [] && !IsSpace(s[|s| - 1])
    ensures RStrip(s) == s && !AllSpace(s)
  {
  }

  /** rstrip of p + text: when text is all whitespace, it is rstrip of p;
      otherwise it is p followed by rstrip of text. */
  lemma {:induction false} RStripAppend(p: string, text: string)
    ensures RStrip(p + text) == if AllSpace(text) then RStrip(p) else p + RStrip(text)
    decreases |text|
  {
    if text == [] {
      assert p + text == p;
    } else {
      var n := |text| - 1;
      var s := p + text;
      assert s[|s| - 1] == text[n];
      if IsSpace(text[n]) {
        assert s[..|s| - 1] == p + text[..n];
        assert RStrip(s) == RStrip(p + text[..n]);
        assert RStrip(text) == RStrip(text[..n]);
        AllSpaceDropLast(text);
        RStripAppend(p, text[..n]);
      } else {
        assert RStrip(s) == s;
        assert RStrip(text) == text;
        assert !AllSpace(text) by { assert !IsSpace(text[n]); }
      }
    }
  }

  lemma AllSpaceDropLast(s: string)
    requires s != [] && IsSpace(s[|s| - 1])
    ensures AllSpace(s) <==> AllSpace(s[..|s| - 1])
  {
    if AllSpace(s[..|s| - 1]) {
      forall k | 0 <= k < |s| - 1 ensures IsSpace(s[k]) {
        assert s[k] == s[..|s| - 1][k];
      }
    }
  }

  /** Stripping a text that starts with non-whitespace and ends in a
      whitespace run drops that run and whatever whitespace precedes it. */
  lemma StripBlankTail(p: string, text: string)
    requires p != [] && !IsSpace(p[0]) && AllSpace(text)
    ensures Strip(p + text) == RStrip(p)
  {
    assert (p + text)[0] == p[0];
    LStripKeeps(p + text);
    RStripAppend(p, text);
  }

  /** Stripping a text that starts with non-whitespace keeps that start
      and rstrips what follows it, when something other than whitespace
      follows. */
  lemma StripAfter(p: string, text: string)
    requires p != [] && !IsSpace(p[0]) && !AllSpace(text)
    ensures Strip(p + text) == p + RStrip(text)
  {
    assert (p + text)[0] == p[0];
    LStripKeeps(p + text);
    RStripAppend(p, text);
  }

  /** Whitespace runs join into whitespace runs. */
  lemma AllSpaceAppend(a: string, b: string)
    requires AllSpace(a) && AllSpace(b)
    ensures AllSpace(a + b)
  {
    forall k | 0 <= k < |a + b|
      ensures IsSpace((a + b)[k])
    {
      if k < |a| {
        assert (a + b)[k] == a[k];
      } else {
        assert (a + b)[k] == b[k - |a|];
      }
    }
  }

  /** s.startswith(p). */
  predicate StartsWith(s: string, p: string) {
    |p| <= |s| && s[..|p|] == p
  }

  /** The index of the first c in s, or |s| when c does not occur. */
  function IndexOf(s: string, c: char): (r: nat)
    ensures r <= |s|
    ensures c !in s[..r]
    ensures r < |s| ==> s[r] == c
    ensures r == |s| <==> c !in s
  {
    if s == [] then 0
    else if s[0] == c then 0
    else
      var r := 1 + IndexOf(s[1..], c);
      assert s[..r] == [s[0]] + s[1..][..r - 1];
      r
  }

  /** s.split(sep, 1): one part when sep does not occur, otherwise the text
      before the first sep and the text after it. */
  function Split1(s: string, sep: char): (parts: seq<string>)
    ensures 1 <= |parts| <= 2
    ensures sep !in parts[0]
    ensures |parts| == 1 <==> sep !in s
    ensures |parts| == 1 ==> parts[0] == s
    ensures |parts| == 2 ==> s == parts[0] + [sep] + parts[1]
  {
    var i := IndexOf(s, sep);
    if i == |s| then [s]
    else
      assert s == s[..i] + [sep] + s[i + 1..];
      [s[..i], s[i + 1..]]
  }

  /** Splitting text whose first sep is right after `head` gives back
      `head` and everything after that sep. */
  lemma Split1Of(head: string, sep: char, tail: string)
    requires sep !in head
    ensures Split1(head + [sep] + tail, sep) == [head, tail]
  {
    var s := head + [sep] + tail;
    var parts := Split1(s, sep);
    assert s[|head|] == sep;
    assert parts[0] == s[..|head|] == head;
    assert parts[1] == s[|head| + 1..] == tail;
  }

  /** c.upper() == k, for an upper-case ASCII letter k: c is k itself, its
      lower-case form, or one of the two non-ASCII letters whose upper case
      is an ASCII letter (U+0131 dotless i and U+017F long s). */
  predicate UpperIs(c: char, k: char) {
    || c == k
    || ('A' <= k <= 'Z' && c as int == k as int + 32)
    || (k == 'I' && c == '\U{131}')
    || (k == 'S' && c == '\U{17F}')
  }

  /** tok.upper() == kw for a keyword kw made of upper-case ASCII letters.
      No character's upper case expands to several letters that could form
      part of WHO, DM, PING or MSG, so the lengths agree. */
  predicate UpperEquals(tok: string, kw: string) {
    |tok| == |kw| && forall i :: 0 <= i < |tok| ==> UpperIs(tok[i], kw[i])
  }
}
