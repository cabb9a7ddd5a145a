/** Splitting a text that lists cities. */
module CitySequence {
  import opened PyText

  /** Length of the separator starting at `i`, tried in the pattern's order; 0 if there is none. */
  function SeparatorAt(s: string, i: nat): (n: nat)
    requires i < |s|
    ensures i + n <= |s|
  {
    var next := if i + 1 < |s| then s[i + 1] else ' ';
    if s[i] == '-' && next == '>' then 2
    else if s[i] == '\U{2192}' then 1
    else if s[i] == '\U{2014}' && next == '>' then 2
    else if s[i] in ">,\U{FF0C}\U{3001}/\U{81F3}\U{5230}" then 1
    else 0
  }

  /** The pieces of `s[start..]` between separators, having scanned up to `i`. */
  function Pieces(s: string, start: nat, i: nat): seq<string>
    requires start <= i <= |s|
    decreases |s| - i
  {
    if i == |s| then [s[start..]]
    else
      var n := SeparatorAt(s, i);
      if n > 0 then [s[start..i]] + Pieces(s, i + n, i + n) else Pieces(s, start, i + 1)
  }

  const DECORATION := "()\U{FF08}\U{FF09}[]\U{3010}\U{3011} "

  function CleanPiece(piece: string): string {
    Strip(Trim(c => c in DECORATION, Strip(piece)))
  }

  /** The pieces that are not empty once cleaned. */
  function Cleaned(clean: string -> string, pieces: seq<string>): (tokens: seq<string>)
    ensures "" !in tokens
  {
    if pieces == [] then []
    else
      var token := clean(pieces[|pieces| - 1]);
      Cleaned(clean, pieces[..|pieces| - 1]) + if token != "" then [token] else []
  }

  function SplitText(s: string): (tokens: seq<string>)
    ensures "" !in tokens
  {
    if Strip(s) == "" then [] else Cleaned(CleanPiece, Pieces(Strip(s), 0, 0))
  }

  method CleanTokens(clean: string -> string, raw: seq<string>) returns (tokens: seq<string>)
    ensures tokens == Cleaned(clean, raw)
  {
    tokens := [];
    for i := 0 to |raw|
      invariant tokens == Cleaned(clean, raw[..i])
    {
      assert raw[..i + 1][..i] == raw[..i];
      var token := clean(raw[i]);
      if token != "" {
        tokens := tokens + [token];
      }
    }
    assert raw[..|raw|] == raw;
  }

  method SplitSequence(s: string) returns (tokens: seq<string>)
    ensures tokens == SplitText(s)
  {
    if Strip(s) == "" {
      return [];
    }
    tokens := CleanTokens(CleanPiece, Pieces(Strip(s), 0, 0));
  }

  // ---------------------------------------------------------------- splitting what was joined

  const SEPARATORS := ["->", "\U{2192}", "\U{2014}>", ">", ",", "\U{FF0C}", "\U{3001}", "/", "\U{81F3}", "\U{5230}"]

  predicate Unseparated(name: string) {
    forall i :: 0 <= i < |name| ==> SeparatorAt(name, i) == 0
  }

  /** The piece does not run into the separator behind it to form another one. */
  predicate Fits(piece: string, sep: string) {
    sep in SEPARATORS && (sep == ">" && piece != "" ==> piece[|piece| - 1] !in {'-', '\U{2014}'})
  }

  /** The pieces with the separators between them. */
  function Joined(pieces: seq<string>, seps: seq<string>): string
    requires |pieces| == |seps| + 1
  {
    if seps == [] then pieces[0] else pieces[0] + seps[0] + Joined(pieces[1..], seps[1..])
  }

  predicate NamedAt(s: string, p: nat, name: string) {
    p + |name| <= |s| && forall k :: 0 <= k < |name| ==> name[k] == s[p + k]
  }

  /** The pieces follow one another from `p` to the end of `s`, a separator between two of them. */
  predicate Listed(s: string, p: nat, pieces: seq<string>, seps: seq<string>)
    requires |pieces| == |seps| + 1
    decreases |seps|
  {
    && NamedAt(s, p, pieces[0])
    && var end := p + |pieces[0]|;
       if seps == [] then end == |s|
       else NamedAt(s, end, seps[0]) && Listed(s, end + |seps[0]|, pieces[1..], seps[1..])
  }

  lemma AppendName(before: string, name: string, sep: string, rest: string)
    ensures before + (name + sep + rest) == before + name + sep + rest
    ensures NamedAt(before + name + sep + rest, |before|, name)
    ensures NamedAt(before + name + sep + rest, |before| + |name|, sep)
  {
  }

  lemma {:induction false} JoinedIsListed(before: string, pieces: seq<string>, seps: seq<string>)
    requires |pieces| == |seps| + 1
    ensures Listed(before + Joined(pieces, seps), |before|, pieces, seps)
    decreases |seps|
  {
    if seps != [] {
      var rest := Joined(pieces[1..], seps[1..]);
      JoinedIsListed(before + pieces[0] + seps[0], pieces[1..], seps[1..]);
      AppendName(before, pieces[0], seps[0], rest);
    }
  }

  /** Each separator is found where it begins. */
  lemma SeparatorIsFound(s: string, i: nat, sep: string)
    requires sep in SEPARATORS && NamedAt(s, i, sep)
    ensures i < |s| && |sep| > 0 && SeparatorAt(s, i) == |sep|
  {
    assert sep[0] == s[i + 0];
    if |sep| == 2 {
      assert sep[1] == s[i + 1];
    }
  }

  /** Within a piece there is none. */
  lemma NoSeparatorWithin(s: string, p: nat, piece: string, k: nat)
    requires Unseparated(piece) && NamedAt(s, p, piece) && k < |piece|
    requires p + |piece| < |s| && s[p + |piece|] == '>' ==> piece[|piece| - 1] !in {'-', '\U{2014}'}
    ensures SeparatorAt(s, p + k) == 0
  {
    assert SeparatorAt(piece, k) == 0;
    assert k + 1 < |piece| ==> piece[k + 1] == s[p + (k + 1)];
  }

  lemma {:induction false} PiecesSkip(s: string, start: nat, i: nat, end: nat)
    requires start <= i <= end <= |s|
    requires forall k :: i <= k < end ==> SeparatorAt(s, k) == 0
    ensures Pieces(s, start, i) == Pieces(s, start, end)
    decreases end - i
  {
    if i < end {
      PiecesSkip(s, start, i + 1, end);
    }
  }

  lemma LastPiece(s: string, p: nat, piece: string)
    requires Unseparated(piece) && NamedAt(s, p, piece) && p + |piece| == |s|
    ensures Pieces(s, p, p) == [piece]
  {
    forall k | p <= k < |s| ensures SeparatorAt(s, k) == 0 { NoSeparatorWithin(s, p, piece, k - p); }
    PiecesSkip(s, p, p, |s|);
    assert s[p..] == piece;
  }

  lemma FirstPiece(s: string, p: nat, piece: string, sep: string)
    requires Unseparated(piece) && Fits(piece, sep) && NamedAt(s, p, piece) && NamedAt(s, p + |piece|, sep)
    ensures Pieces(s, p, p) == [piece] + Pieces(s, p + |piece| + |sep|, p + |piece| + |sep|)
  {
    var end := p + |piece|;
    SeparatorIsFound(s, end, sep);
    assert sep[0] == s[end + 0];
    SeparatorStarts(sep);
    forall k | p <= k < end ensures SeparatorAt(s, k) == 0 { NoSeparatorWithin(s, p, piece, k - p); }
    PiecesSkip(s, p, p, end);
    assert s[p..end] == piece;
  }

  lemma SeparatorStarts(sep: string)
    requires sep in SEPARATORS
    ensures sep != "" && (sep[0] == '>' ==> sep == ">")
  {
  }

  lemma {:induction false} PiecesOfListed(s: string, p: nat, pieces: seq<string>, seps: seq<string>)
    requires |pieces| == |seps| + 1 && Listed(s, p, pieces, seps)
    requires forall i {:trigger pieces[i]} :: 0 <= i < |pieces| ==> Unseparated(pieces[i])
    requires forall i {:trigger seps[i]} :: 0 <= i < |seps| ==> Fits(pieces[i], seps[i])
    ensures p <= |s| && Pieces(s, p, p) == pieces
    decreases |seps|
  {
    assert Unseparated(pieces[0]);
    if seps == [] {
      LastPiece(s, p, pieces[0]);
      assert pieces == [pieces[0]];
    } else {
      assert Fits(pieces[0], seps[0]);
      FirstPiece(s, p, pieces[0], seps[0]);
      PiecesOfListed(s, p + |pieces[0]| + |seps[0]|, pieces[1..], seps[1..]);
      assert pieces == [pieces[0]] + pieces[1..];
    }
  }

  lemma JoinedByOne(pieces: seq<string>, seps: seq<string>)
    requires |pieces| == |seps| + 1 && forall i {:trigger seps[i]} :: 0 <= i < |seps| ==> Fits(pieces[i], seps[i])
    ensures seps != [] ==> Joined(pieces, seps) != ""
  {
    if seps != [] {
      assert Fits(pieces[0], seps[0]);
      SeparatorStarts(seps[0]);
    }
  }

  /** Pieces without separators, joined by any of the separators to a text without white space at its ends, are found
      again: the tokens are those of them that cleaning does not leave empty, in order. */
  lemma SplitReadsPieces(pieces: seq<string>, seps: seq<string>)
    requires |pieces| == |seps| + 1 && Trimmed(IsSpace, Joined(pieces, seps))
    requires forall i {:trigger pieces[i]} :: 0 <= i < |pieces| ==> Unseparated(pieces[i])
    requires forall i {:trigger seps[i]} :: 0 <= i < |seps| ==> Fits(pieces[i], seps[i])
    ensures SplitText(Joined(pieces, seps)) == Cleaned(CleanPiece, pieces)
  {
    var s := Joined(pieces, seps);
    TrimmedIsFixed(IsSpace, s);
    JoinedIsListed("", pieces, seps);
    assert "" + s == s;
    PiecesOfListed(s, 0, pieces, seps);
    JoinedByOne(pieces, seps);
    if s == "" {
      assert pieces == [pieces[0]] && pieces[0] == "";
      assert CleanPiece("") == "";
      assert pieces[..0] == [];
    }
  }

  /** Cleaning takes white space and, inside of it, brackets from the ends of a name. */
  lemma CleaningUndecorates(before: string, open: string, name: string, close: string, after: string)
    requires All(IsSpace, before) && All(IsSpace, after)
    requires All(c => c in DECORATION && !IsSpace(c), open) && All(c => c in DECORATION && !IsSpace(c), close)
    requires name != "" && Trimmed(c => c in DECORATION, name) && Trimmed(IsSpace, name)
    ensures CleanPiece(before + (open + name + close) + after) == name
  {
    var inner := open + name + close;
    assert inner[0] == if open != "" then open[0] else name[0];
    assert inner[|inner| - 1] == if close != "" then close[|close| - 1] else name[|name| - 1];
    assert open != "" ==> open[0] in open;
    assert close != "" ==> close[|close| - 1] in close;
    TrimOf(IsSpace, before, inner, after);
    assert All(c => c in DECORATION, open) && All(c => c in DECORATION, close);
    TrimOf(c => c in DECORATION, open, name, close);
    TrimmedIsFixed(IsSpace, name);
  }

  /** A name that splitting leaves alone. */
  predicate Plain(name: string) {
    name != "" && CleanPiece(name) == name && Unseparated(name)
  }

  lemma CleanedSnoc(clean: string -> string, front: seq<string>, last: string)
    requires clean(last) == last != ""
    ensures Cleaned(clean, front + [last]) == Cleaned(clean, front) + [last]
  {
    assert (front + [last])[..|front|] == front;
  }

  lemma {:induction false} CleanedFixed(clean: string -> string, names: seq<string>)
    requires forall i {:trigger names[i]} :: 0 <= i < |names| ==> clean(names[i]) == names[i] != ""
    ensures Cleaned(clean, names) == names
  {
    if names != [] {
      var front, last := names[..|names| - 1], names[|names| - 1];
      CleanedFixed(clean, front);
      CleanedSnoc(clean, front, last);
      assert names == front + [last];
    }
  }

  /** A plain name has no white space at its ends. */
  lemma PlainIsTrimmed(name: string)
    requires Plain(name)
    ensures Trimmed(IsSpace, name)
  {
    TrimGivesTrimmed(IsSpace, Trim(c => c in DECORATION, Strip(name)));
  }

  lemma {:induction false} JoinedIsTrimmed(names: seq<string>, seps: seq<string>)
    requires |names| == |seps| + 1 && forall i {:trigger names[i]} :: 0 <= i < |names| ==> Plain(names[i])
    ensures Joined(names, seps) != "" && Trimmed(IsSpace, Joined(names, seps))
    decreases |seps|
  {
    assert Plain(names[0]);
    PlainIsTrimmed(names[0]);
    if seps != [] {
      JoinedIsTrimmed(names[1..], seps[1..]);
      var rest := Joined(names[1..], seps[1..]);
      assert Joined(names, seps)[|Joined(names, seps)| - 1] == rest[|rest| - 1];
    }
  }

  /** Splitting a list of plain names, joined by any separators, gives the names back. */
  lemma SplitInvertsJoin(names: seq<string>, seps: seq<string>)
    requires |names| == |seps| + 1 && forall i {:trigger names[i]} :: 0 <= i < |names| ==> Plain(names[i])
    requires forall i {:trigger seps[i]} :: 0 <= i < |seps| ==> Fits(names[i], seps[i])
    ensures SplitText(Joined(names, seps)) == names
  {
    JoinedIsTrimmed(names, seps);
    forall i | 0 <= i < |names| ensures Unseparated(names[i]) && CleanPiece(names[i]) == names[i] != "" {
      assert Plain(names[i]);
    }
    SplitReadsPieces(names, seps);
    CleanedFixed(CleanPiece, names);
  }
}
