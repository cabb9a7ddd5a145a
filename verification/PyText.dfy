/** The few Python string operations the Partner runner relies on. */
module PyText {

  /** Characters removed by an argument-less `str.strip()` (and matched by `\s` in a `str` pattern). */
  predicate IsSpace(c: char) {
    var n := c as int;
    || 9 <= n <= 13 || 28 <= n <= 32 || n == 0x85 || n == 0xA0 || n == 0x1680
    || 0x2000 <= n <= 0x200A || n == 0x2028 || n == 0x2029 || n == 0x202F || n == 0x205F || n == 0x3000
  }

  function TrimLeft(p: char -> bool, s: string): (r: string)
    ensures |r| <= |s| && (r == "" || !p(r[0]))
  {
    if s != "" && p(s[0]) then TrimLeft(p, s[1..]) else s
  }

  function TrimRight(p: char -> bool, s: string): (r: string)
    ensures r <= s && (r == "" || !p(r[|r| - 1]))
  {
    if s != "" && p(s[|s| - 1]) then TrimRight(p, s[..|s| - 1]) else s
  }

  function Trim(p: char -> bool, s: string): string {
    TrimRight(p, TrimLeft(p, s))
  }

  function Strip(s: string): string {
    Trim(IsSpace, s)
  }

  /** True when neither end of `s` would be removed by trimming with `p`. */
  predicate Trimmed(p: char -> bool, s: string) {
    s != "" ==> !p(s[0]) && !p(s[|s| - 1])
  }

  lemma TrimmedIsFixed(p: char -> bool, s: string)
    requires Trimmed(p, s)
    ensures Trim(p, s) == s
  {
  }

  lemma TrimGivesTrimmed(p: char -> bool, s: string)
    ensures Trimmed(p, Trim(p, s))
  {
  }

  lemma TrimLeftAppend(p: char -> bool, a: string, b: string)
    requires b != "" && !p(b[0])
    ensures TrimLeft(p, a + b) == TrimLeft(p, a) + b
  {
    if a == "" {
      assert a + b == b;
    } else {
      assert (a + b)[1..] == a[1..] + b;
      TrimLeftAppend(p, a[1..], b);
    }
  }

  predicate EndsWith(s: string, t: string) {
    |t| <= |s| && s[|s| - |t|..] == t
  }

  /** `s.rsplit(".", 1)[-1]`: what follows the last dot, or all of `s` when there is none. */
  function AfterLastDot(s: string): (r: string)
    ensures '.' !in r
    ensures EndsWith(s, r)
    ensures s != "" && s[|s| - 1] != '.' ==> r != ""
  {
    if s == "" || s[|s| - 1] == '.' then "" else AfterLastDot(s[..|s| - 1]) + [s[|s| - 1]]
  }

  lemma AfterLastDotOfJoin(prefix: string, suffix: string)
    requires '.' !in suffix
    ensures AfterLastDot(prefix + Dotted(suffix)) == suffix
  {
    var s := prefix + Dotted(suffix);
    if suffix != "" {
      var shorter := suffix[..|suffix| - 1];
      assert s[..|s| - 1] == prefix + Dotted(shorter);
      AfterLastDotOfJoin(prefix, shorter);
    }
  }

  function Dotted(suffix: string): (r: string)
    ensures |r| == |suffix| + 1 && r[0] == '.' && r[1..] == suffix
    ensures suffix != "" ==> r[|r| - 1] == suffix[|suffix| - 1]
  {
    "." + suffix
  }

  lemma StripAppend(prefix: string, tail: string)
    requires tail != "" && !IsSpace(tail[0]) && !IsSpace(tail[|tail| - 1])
    ensures Strip(prefix + tail) == TrimLeft(IsSpace, prefix) + tail
  {
    TrimLeftAppend(IsSpace, prefix, tail);
    var t := TrimLeft(IsSpace, prefix) + tail;
    assert t[|t| - 1] == tail[|tail| - 1];
    assert TrimRight(IsSpace, t) == t;
  }

  predicate All(p: char -> bool, s: string) {
    forall c :: c in s ==> p(c)
  }

  lemma {:induction false} TrimLeftMeaning(p: char -> bool, s: string) returns (cut: string)
    ensures s == cut + TrimLeft(p, s) && All(p, cut)
  {
    if s != "" && p(s[0]) {
      var rest := TrimLeftMeaning(p, s[1..]);
      cut := [s[0]] + rest;
      assert s == [s[0]] + s[1..];
    } else {
      cut := "";
    }
  }

  lemma {:induction false} TrimRightMeaning(p: char -> bool, s: string) returns (cut: string)
    ensures s == TrimRight(p, s) + cut && All(p, cut)
  {
    if s != "" && p(s[|s| - 1]) {
      var rest := TrimRightMeaning(p, s[..|s| - 1]);
      cut := rest + [s[|s| - 1]];
      assert s == s[..|s| - 1] + [s[|s| - 1]];
    } else {
      cut := "";
    }
  }

  /** Trimming takes away just the longest ends made of such characters. */
  lemma TrimMeaning(p: char -> bool, s: string)
    ensures Trimmed(p, Trim(p, s))
    ensures exists before, after :: s == before + Trim(p, s) + after && All(p, before) && All(p, after)
  {
    TrimGivesTrimmed(p, s);
    var before := TrimLeftMeaning(p, s);
    var after := TrimRightMeaning(p, TrimLeft(p, s));
    assert s == before + Trim(p, s) + after;
  }

  /** No other part of the text is what trimming leaves. */
  lemma {:induction false} TrimOf(p: char -> bool, before: string, t: string, after: string)
    requires All(p, before) && All(p, after) && t != "" && Trimmed(p, t)
    ensures Trim(p, before + t + after) == t
    decreases |before| + |after|
  {
    var s := before + t + after;
    if before != "" {
      assert s[0] == before[0] && before[0] in before;
      assert s[1..] == before[1..] + t + after;
      TrimOf(p, before[1..], t, after);
    } else {
      assert s[0] == t[0];
      assert TrimLeft(p, s) == s;
      TrimRightOf(p, t, after);
      assert s == t + after;
    }
  }

  lemma {:induction false} TrimRightOf(p: char -> bool, t: string, after: string)
    requires All(p, after) && t != "" && !p(t[|t| - 1])
    ensures TrimRight(p, t + after) == t
    decreases |after|
  {
    if after == "" {
      assert t + after == t;
    } else {
      var last := |after| - 1;
      assert (t + after)[|t + after| - 1] == after[last] && after[last] in after;
      assert (t + after)[..|t + after| - 1] == t + after[..last];
      TrimRightOf(p, t, after[..last]);
    }
  }
}
