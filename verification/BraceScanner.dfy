/** Finding the JSON object in a language-model reply by counting braces. */
module BraceScanner {

  function Delta(c: char): int {
    if c == '{' then 1 else if c == '}' then -1 else 0
  }

  /** Opening braces of `t` minus its closing ones. */
  function Depth(t: string): int {
    if t == "" then 0 else Depth(t[..|t| - 1]) + Delta(t[|t| - 1])
  }

  /** The depth is what the opening braces have on the closing ones; nothing else counts. */
  lemma {:induction false} DepthCounts(t: string)
    ensures Depth(t) + multiset(t)['}'] == multiset(t)['{']
  {
    if t != "" {
      var front, last := t[..|t| - 1], t[|t| - 1];
      assert t == front + [last];
      DepthCounts(front);
    }
  }

  /** `t` opens with a brace and no proper prefix of it (nor, unless it closes, `t` itself) is balanced. */
  predicate OpenBefore(t: string, end: nat) {
    t != "" && t[0] == '{' && forall n :: 0 < n < end && n <= |t| ==> Depth(t[..n]) > 0
  }

  /** An object text: the depth first returns to zero at its last character. */
  predicate Closes(t: string) {
    OpenBefore(t, |t|) && Depth(t) == 0
  }

  /** A text whose depth never returns to zero. */
  predicate NeverCloses(t: string) {
    OpenBefore(t, |t| + 1)
  }

  function FirstBrace(s: string): (n: nat)
    ensures n <= |s| && forall i :: 0 <= i < n ==> s[i] != '{'
    ensures n < |s| ==> s[n] == '{'
  {
    if s == "" || s[0] == '{' then 0 else 1 + FirstBrace(s[1..])
  }

  /** The length of the shortest prefix of `t`, longer than `n`, that closes; all of `t` if there is none. */
  function CloseLength(t: string, n: nat): (r: nat)
    requires n <= |t|
    ensures n <= r <= |t|
    decreases |t| - n
  {
    if n == |t| || Depth(t[..n + 1]) == 0 then (if n == |t| then n else n + 1) else CloseLength(t, n + 1)
  }

  function Scan(response: string): string {
    var n := FirstBrace(response);
    if n == |response| then response else response[n..][..CloseLength(response[n..], 0)]
  }

  method ScanBraces(response: string) returns (r: string)
    ensures r == Scan(response)
  {
    r := response;
    var n := FirstBrace(response);
    if n < |response| {
      r := response[n..];
      var count, end := 0, -1;
      var i := 0;
      while i < |r| && end == -1
        invariant 0 <= i <= |r|
        invariant end == -1 ==> count == Depth(r[..i]) && (i > 0 ==> count > 0)
        invariant end == -1 ==> CloseLength(r, 0) == CloseLength(r, i)
        invariant end != -1 ==> 0 <= end < |r| && CloseLength(r, 0) == end + 1
      {
        assert r[..i + 1][..i] == r[..i];
        if r[i] == '{' {
          count := count + 1;
        } else if r[i] == '}' {
          count := count - 1;
          if count == 0 {
            end := i;
          }
        }
        i := i + 1;
      }
      if end != -1 {
        r := r[..end + 1];
      } else {
        assert r[..|r|] == r;
      }
    }
  }

  lemma {:induction false} CloseLengthMeaning(t: string, n: nat)
    requires n < |t| && t[0] == '{' && OpenBefore(t, n + 1)
    ensures var r := CloseLength(t, n); Closes(t[..r]) || (r == |t| && NeverCloses(t))
    decreases |t| - n
  {
    var r := CloseLength(t, n);
    var d := Depth(t[..n + 1]);
    assert t[..n + 1][..n] == t[..n];
    assert Depth(t[..0]) == 0;
    assert d >= 0;
    if d == 0 {
      forall k | 0 < k < n + 1 ensures Depth(t[..r][..k]) > 0 {
        assert t[..r][..k] == t[..k];
      }
    } else {
      assert t[..|t|] == t;
      if n + 1 < |t| {
        CloseLengthMeaning(t, n + 1);
      }
    }
  }

  /** A scanned object starts at the first brace and is either closed or, when nothing closes, all the rest. */
  lemma ScanMeaning(response: string)
    requires '{' in response
    ensures var rest := response[FirstBrace(response)..];
      && Scan(response) <= rest
      && (Closes(Scan(response)) || (Scan(response) == rest && NeverCloses(rest)))
  {
    var n := FirstBrace(response);
    assert response == response[..n] + response[n..];
    CloseLengthMeaning(response[n..], 0);
  }

  lemma FirstBraceAfter(prefix: string, t: string)
    requires '{' !in prefix && t != "" && t[0] == '{'
    ensures FirstBrace(prefix + t) == |prefix|
  {
    assert forall i :: 0 <= i < |prefix| ==> (prefix + t)[i] == prefix[i] && prefix[i] in prefix;
    assert (prefix + t)[|prefix|] == '{';
  }

  /** Two closing prefixes of the same text are the same. */
  lemma ClosingPrefixUnique(a: string, b: string, t: string)
    requires a <= t && b <= t && Closes(a) && (Closes(b) || (b == t && NeverCloses(b)))
    ensures a == b
  {
    assert |a| <= |b| ==> b[..|a|] == a;
    assert |b| <= |a| ==> a[..|b|] == b;
  }

  /** Between a prefix without `{` and any suffix, the scan returns exactly `t` if and only if the depth of
      `t` first returns to zero at its last character, or never does and nothing follows. */
  lemma ScanReturnsIff(prefix: string, t: string, suffix: string)
    requires '{' !in prefix && t != "" && t[0] == '{'
    ensures Scan(prefix + t + suffix) == t <==> Closes(t) || (suffix == "" && NeverCloses(t))
  {
    var rest := t + suffix;
    assert prefix + t + suffix == prefix + rest;
    FirstBraceAfter(prefix, rest);
    var response := prefix + rest;
    assert response[|prefix|..] == rest;
    assert response[|prefix|] == '{';
    ScanMeaning(response);
    var got := Scan(response);
    assert t <= rest;
    if Closes(t) {
      ClosingPrefixUnique(t, got, rest);
    } else if suffix == "" && NeverCloses(t) {
      assert rest == t;
      if Closes(got) {
        ClosingPrefixUnique(got, t, rest);
      }
    } else if got == t && got == rest {
      assert |suffix| == 0;
    }
  }

  /** A reply without an opening brace is left alone. */
  lemma ScanWithoutBrace(response: string)
    requires '{' !in response
    ensures Scan(response) == response
  {
    assert forall i :: 0 <= i < |response| ==> response[i] in response;
  }

  lemma ScanIdempotent(response: string)
    ensures Scan(Scan(response)) == Scan(response)
  {
    if '{' in response {
      ScanMeaning(response);
      var t := Scan(response);
      assert "" + t + "" == t;
      ScanReturnsIff("", t, "");
    } else {
      ScanWithoutBrace(response);
    }
  }

  /** Braces inside strings are counted too, so a well-formed object can be cut short. */
  lemma StringBracesCutTheScan()
    ensures Scan("{\"}\":1}") == "{\"}"
  {
    var t, rest := "{\"}", "\":1}";
    assert "{\"}\":1}" == "" + t + rest;
    assert t[..1] == "{" && Depth("{") == 1;
    assert t[..2] == "{\"" && "{\""[..1] == "{";
    assert Closes(t);
    ScanReturnsIff("", t, rest);
  }
}
