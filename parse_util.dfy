/**
 * String helpers: whether a string contains a character or a substring, and
 * two ways to split a string at a delimiter, one scanning the characters
 * with an iterator, one reading successive lines from a string stream.
 * Strings are sequences of characters; std::stoi and its relatives are not
 * modelled.
 */
module ParseUtil {
  import opened G3Types

  /** The Options bit set; RemoveEmpty is its only flag. */
  type Options = bv32

  const RemoveEmpty: Options := 1

  predicate SkipEmpty(options: Options) {
    options & RemoveEmpty != 0
  }

  datatype SplitError = IteratorPastEnd

  // ---------------------------------------------------------------------
  // Contains

  /** Some position of s holds c. */
  function Contains(s: string, c: char): (r: bool)
    ensures r <==> exists i :: 0 <= i < |s| && s[i] == c
  {
    if s == [] then false
    else if s[0] == c then true
    else
      assert forall i :: 1 <= i < |s| ==> s[i] == s[1..][i - 1];
      Contains(s[1..], c)
  }

  /** sub occurs in s at position i. */
  predicate OccursAt(s: string, sub: string, i: int) {
    0 <= i && i + |sub| <= |s| && s[i..i + |sub|] == sub
  }

  /** The first position at or after i where sub occurs, or |s| + 1 when there is none. */
  function FindFrom(s: string, sub: string, i: nat): (r: nat)
    requires i <= |s| + 1
    decreases |s| + 1 - i
    ensures r == |s| + 1 || (i <= r && OccursAt(s, sub, r))
    ensures forall k :: i <= k < r && k <= |s| ==> !OccursAt(s, sub, k)
  {
    if i > |s| then |s| + 1
    else if OccursAt(s, sub, i) then i
    else FindFrom(s, sub, i + 1)
  }

  /** sub occurs somewhere in s (the empty string occurs everywhere). */
  function ContainsSub(s: string, sub: string): (r: bool)
    ensures r <==> exists i :: 0 <= i <= |s| && OccursAt(s, sub, i)
  {
    FindFrom(s, sub, 0) != |s| + 1
  }

  // ---------------------------------------------------------------------
  // What the iterator scan produces

  /** The tokens that are kept: all of them, or the non-empty ones. */
  function Keep(ts: seq<string>, skip: bool): (r: seq<string>)
    ensures skip ==> forall k :: 0 <= k < |r| ==> r[k] != []
    ensures !skip ==> r == ts
  {
    if ts == [] then []
    else (if skip && ts[0] == [] then [] else [ts[0]]) + Keep(ts[1..], skip)
  }

  /**
   * The tokens the scan still pushes when the current token starts at start
   * and the next character to test is at cur.
   */
  function Scan(s: string, d: char, skip: bool, start: nat, cur: nat): seq<string>
    requires start <= cur <= |s|
    decreases |s| - cur
  {
    if cur == |s| then (if start != cur then [s[start..]] else [])
    else if s[cur] == d then
      (if start != cur || !skip then [s[start..cur]] else []) + Scan(s, d, skip, cur + 1, cur + 1)
    else Scan(s, d, skip, start, cur + 1)
  }

  // ---------------------------------------------------------------------
  // What successive std::getline calls produce

  /** The first delimiter at or after i, or |s|. */
  function NextDelim(s: string, d: char, i: nat): (j: nat)
    requires i <= |s|
    decreases |s| - i
    ensures i <= j <= |s| && (j < |s| ==> s[j] == d)
    ensures forall k :: i <= k < j ==> s[k] != d
  {
    if i == |s| || s[i] == d then i else NextDelim(s, d, i + 1)
  }

  /**
   * The lines std::getline reads from position i on: each call extracts up to
   * the next delimiter and consumes it, and fails once nothing is left.
   */
  function GetlineFrom(s: string, d: char, i: nat): seq<string>
    requires i <= |s|
    decreases |s| - i
  {
    if i == |s| then []
    else
      var j := NextDelim(s, d, i);
      [s[i..j]] + (if j == |s| then [] else GetlineFrom(s, d, j + 1))
  }

  /** The tokens joined back together with d between them. */
  function Join(ts: seq<string>, d: char): string {
    if ts == [] then []
    else if |ts| == 1 then ts[0]
    else ts[0] + [d] + Join(ts[1..], d)
  }

  predicate NoDelimiter(ts: seq<string>, d: char) {
    forall k, m :: 0 <= k < |ts| && 0 <= m < |ts[k]| ==> ts[k][m] != d
  }

  /** No line contains the delimiter. */
  lemma {:induction false} GetlineNoDelimiter(s: string, d: char, i: nat)
    requires i <= |s|
    decreases |s| - i
    ensures NoDelimiter(GetlineFrom(s, d, i), d)
  {
    if i < |s| {
      var j := NextDelim(s, d, i);
      if j < |s| {
        GetlineNoDelimiter(s, d, j + 1);
        NoDelimiterStep(s, d, i, j);
      } else {
        NoDelimiterLast(s, d, i);
      }
    }
  }

  lemma NoDelimiterStep(s: string, d: char, i: nat, j: nat)
    requires i < |s| && j == NextDelim(s, d, i) && j < |s|
    requires NoDelimiter(GetlineFrom(s, d, j + 1), d)
    ensures NoDelimiter(GetlineFrom(s, d, i), d)
  {
    GetlineUnfold(s, d, i, j);
    NoDelimiterCons(s[i..j], GetlineFrom(s, d, j + 1), d);
  }

  lemma NoDelimiterLast(s: string, d: char, i: nat)
    requires i < |s| && NextDelim(s, d, i) == |s|
    ensures NoDelimiter(GetlineFrom(s, d, i), d)
  {
    assert GetlineFrom(s, d, i) == [s[i..|s|]] + [];
    NoDelimiterCons(s[i..|s|], [], d);
  }

  lemma NoDelimiterCons(x: string, rest: seq<string>, d: char)
    requires forall m :: 0 <= m < |x| ==> x[m] != d
    requires NoDelimiter(rest, d)
    ensures NoDelimiter([x] + rest, d)
  {
    var ts := [x] + rest;
    forall k, m | 0 <= k < |ts| && 0 <= m < |ts[k]|
      ensures ts[k][m] != d
    {
      if k > 0 {
        assert ts[k] == rest[k - 1];
      }
    }
  }

  lemma JoinCons(first: string, rest: seq<string>, d: char, trail: string)
    requires rest != []
    ensures Join([first] + rest, d) + trail == first + [d] + (Join(rest, d) + trail)
  {
    assert ([first] + rest)[1..] == rest;
  }

  /** Joining the lines with the delimiter gives back s, minus its final delimiter. */
  lemma {:induction false} GetlineJoin(s: string, d: char, i: nat)
    requires i < |s|
    decreases |s| - i
    ensures Join(GetlineFrom(s, d, i), d) + (if s[|s| - 1] == d then [d] else []) == s[i..]
  {
    var j := NextDelim(s, d, i);
    if j + 1 >= |s| {
      LastLineJoin(s, d, i);
    } else {
      GetlineJoin(s, d, j + 1);
      JoinAtDelimiter(s, d, i, j);
    }
  }

  /** The case of GetlineJoin where a line ends at a delimiter and more follow. */
  lemma JoinAtDelimiter(s: string, d: char, i: nat, j: nat)
    requires i <= j && j + 1 < |s| && NextDelim(s, d, i) == j
    requires Join(GetlineFrom(s, d, j + 1), d) + (if s[|s| - 1] == d then [d] else []) == s[j + 1..]
    ensures Join(GetlineFrom(s, d, i), d) + (if s[|s| - 1] == d then [d] else []) == s[i..]
  {
    var rest := GetlineFrom(s, d, j + 1);
    var trail := if s[|s| - 1] == d then [d] else [];
    GetlineUnfold(s, d, i, j);
    JoinCons(s[i..j], rest, d, trail);
    SliceAtDelimiter(s, d, i, j);
  }

  lemma GetlineUnfold(s: string, d: char, i: nat, j: nat)
    requires i < |s| && j == NextDelim(s, d, i) && j < |s|
    ensures GetlineFrom(s, d, i) == [s[i..j]] + GetlineFrom(s, d, j + 1)
  {
  }

  /** The case of GetlineJoin where the line read from i is the last one. */
  lemma LastLineJoin(s: string, d: char, i: nat)
    requires i < |s| && NextDelim(s, d, i) + 1 >= |s|
    ensures Join(GetlineFrom(s, d, i), d) + (if s[|s| - 1] == d then [d] else []) == s[i..]
  {
    var j := NextDelim(s, d, i);
    if j == |s| {
      assert s[|s| - 1] != d;
      SingleLine(s, d, i, j);
      assert s[i..j] == s[i..];
    } else {
      assert s[|s| - 1] == d;
      SingleLine(s, d, i, j);
      assert s[i..j] + [d] == s[i..];
    }
  }

  lemma SingleLine(s: string, d: char, i: nat, j: nat)
    requires i < |s| && j == NextDelim(s, d, i) && j + 1 >= |s|
    ensures Join(GetlineFrom(s, d, i), d) == s[i..j]
  {
    if j < |s| {
      assert GetlineFrom(s, d, j + 1) == [];
    }
    assert GetlineFrom(s, d, i) == [s[i..j]];
  }

  lemma SliceAtDelimiter(s: string, d: char, i: nat, j: nat)
    requires i <= j < |s| && s[j] == d
    ensures s[i..] == s[i..j] + [d] + s[j + 1..]
  {
  }

  /**
   * Scanning from position start, with no delimiter among s[start..cur], yields
   * the kept lines std::getline would read from start.
   */
  lemma {:induction false} ScanIsGetline(s: string, d: char, skip: bool, start: nat, cur: nat)
    requires start <= cur <= |s|
    requires forall k :: start <= k < cur ==> s[k] != d
    decreases |s| - cur
    ensures Scan(s, d, skip, start, cur) == Keep(GetlineFrom(s, d, start), skip)
  {
    if start == |s| {
    } else if cur == |s| {
      ScanAtEnd(s, d, skip, start);
    } else if s[cur] == d {
      ScanIsGetline(s, d, skip, cur + 1, cur + 1);
      assert NextDelim(s, d, start) == cur;
      ScanAtDelimiter(s, d, skip, start, cur);
    } else {
      ScanIsGetline(s, d, skip, start, cur + 1);
    }
  }

  /** The last token, with no delimiter after start, is the last line. */
  lemma ScanAtEnd(s: string, d: char, skip: bool, start: nat)
    requires start < |s|
    requires forall k :: start <= k < |s| ==> s[k] != d
    ensures Scan(s, d, skip, start, |s|) == Keep(GetlineFrom(s, d, start), skip)
  {
    assert NextDelim(s, d, start) == |s|;
    assert s[start..|s|] == s[start..];
    assert GetlineFrom(s, d, start) == [s[start..]];
    assert Keep([s[start..]], skip) == [s[start..]] + Keep([], skip);
  }

  /** A token ending at a delimiter is the line read from its start. */
  lemma ScanAtDelimiter(s: string, d: char, skip: bool, start: nat, cur: nat)
    requires start <= cur < |s| && s[cur] == d && NextDelim(s, d, start) == cur
    requires Scan(s, d, skip, cur + 1, cur + 1) == Keep(GetlineFrom(s, d, cur + 1), skip)
    ensures Scan(s, d, skip, start, cur) == Keep(GetlineFrom(s, d, start), skip)
  {
    var x := s[start..cur];
    var rest := GetlineFrom(s, d, cur + 1);
    GetlineUnfold(s, d, start, cur);
    KeepCons(x, rest, skip);
    assert |x| == cur - start;
  }

  lemma KeepCons(x: string, rest: seq<string>, skip: bool)
    ensures Keep([x] + rest, skip) == (if skip && x == [] then [] else [x]) + Keep(rest, skip)
  {
    assert ([x] + rest)[1..] == rest;
  }

  // ---------------------------------------------------------------------
  // The two Split overloads

  /**
   * The scanning loop: with the first token starting at 0 and the first
   * character tested at cur0, pushes every token that ends at a delimiter
   * (the empty ones only without RemoveEmpty) and a non-empty trailing token.
   */
  method ScanTokens(s: string, d: char, skip: bool, cur0: nat) returns (tokens: seq<string>)
    requires cur0 <= |s|
    ensures tokens == Scan(s, d, skip, 0, cur0)
  {
    tokens := [];
    var cur := cur0;
    var curStart := 0;
    while cur != |s|
      invariant curStart <= cur <= |s|
      invariant tokens + Scan(s, d, skip, curStart, cur) == Scan(s, d, skip, 0, cur0)
      decreases |s| - cur
    {
      if s[cur] == d {
        var isEmpty := curStart == cur;
        if !isEmpty || !skip {
          tokens := tokens + [s[curStart..cur]];
        }
        cur := cur + 1;
        curStart := cur;
      } else {
        cur := cur + 1;
      }
    }
    if curStart != cur {
      tokens := tokens + [s[curStart..]];
    }
  }

  /**
   * The iterator overload as written: the previous tokens are discarded and
   * scanning starts at the second character, so s[0] is never tested as a
   * delimiter; on an empty string the iterator is moved past the end.
   */
  method SplitAsWritten(s: string, d: char, tokens: seq<string>, options: Options)
    returns (r: Result<seq<string>, SplitError>)
    ensures s == [] <==> r == Err(IteratorPastEnd)
    ensures s != [] ==> r == Ok(Scan(s, d, SkipEmpty(options), 0, 1))
  {
    if s == [] {
      return Err(IteratorPastEnd);
    }
    var ts := ScanTokens(s, d, SkipEmpty(options), 1);
    return Ok(ts);
  }

  /**
   * The iterator overload with scanning from the first character: exactly the
   * tokens the std::getline overload returns.
   */
  method Split(s: string, d: char, tokens: seq<string>, options: Options) returns (out: seq<string>)
    ensures out == Keep(GetlineFrom(s, d, 0), SkipEmpty(options))
  {
    out := ScanTokens(s, d, SkipEmpty(options), 0);
    ScanIsGetline(s, d, SkipEmpty(options), 0, 0);
  }

  /** One std::getline call at position pos: the line up to the next delimiter, and where the next call starts. */
  method Getline(s: string, d: char, pos: nat) returns (token: string, next: nat)
    requires pos < |s|
    ensures var j := NextDelim(s, d, pos);
      token == s[pos..j] && next == (if j == |s| then |s| else j + 1)
  {
    var j := pos;
    while j < |s| && s[j] != d
      invariant pos <= j <= |s| && NextDelim(s, d, pos) == NextDelim(s, d, j)
      decreases |s| - j
    {
      j := j + 1;
    }
    token := s[pos..j];
    next := if j == |s| then |s| else j + 1;
  }

  /**
   * The std::getline overload: one token per line read, the empty ones
   * dropped with RemoveEmpty.
   */
  method SplitLines(s: string, d: char, options: Options) returns (tokens: seq<string>)
    ensures tokens == Keep(GetlineFrom(s, d, 0), SkipEmpty(options))
  {
    var skip := SkipEmpty(options);
    tokens := [];
    var pos := 0;
    while pos < |s|
      invariant 0 <= pos <= |s|
      invariant tokens + Keep(GetlineFrom(s, d, pos), skip) == Keep(GetlineFrom(s, d, 0), skip)
      decreases |s| - pos
    {
      GetlineLoopStep(s, d, skip, tokens, pos);
      var token, next := Getline(s, d, pos);
      pos := next;
      if !(skip && |token| == 0) {
        tokens := tokens + [token];
      }
    }
  }

  /** One std::getline call: the line up to the next delimiter, then the rest. */
  lemma GetlineStep(s: string, d: char, skip: bool, pos: nat)
    requires pos < |s|
    ensures var j := NextDelim(s, d, pos); var next := if j == |s| then |s| else j + 1;
      Keep(GetlineFrom(s, d, pos), skip)
      == (if skip && s[pos..j] == [] then [] else [s[pos..j]]) + Keep(GetlineFrom(s, d, next), skip)
  {
    var j := NextDelim(s, d, pos);
    var next := if j == |s| then |s| else j + 1;
    var rest := GetlineFrom(s, d, next);
    assert GetlineFrom(s, d, pos) == [s[pos..j]] + rest;
    KeepCons(s[pos..j], rest, skip);
  }

  lemma ConcatAssoc<T>(a: seq<T>, b: seq<T>, c: seq<T>)
    ensures (a + b) + c == a + (b + c)
  {
  }

  lemma GetlineLoopStep(s: string, d: char, skip: bool, tokens: seq<string>, pos: nat)
    requires pos < |s|
    requires tokens + Keep(GetlineFrom(s, d, pos), skip) == Keep(GetlineFrom(s, d, 0), skip)
    ensures var j := NextDelim(s, d, pos); var next := if j == |s| then |s| else j + 1;
      var token := s[pos..j];
      (if skip && |token| == 0 then tokens else tokens + [token]) + Keep(GetlineFrom(s, d, next), skip)
      == Keep(GetlineFrom(s, d, 0), skip)
  {
    GetlineStep(s, d, skip, pos);
    var j := NextDelim(s, d, pos);
    var next := if j == |s| then |s| else j + 1;
    var token := s[pos..j];
    var rest := Keep(GetlineFrom(s, d, next), skip);
    if skip && |token| == 0 {
      assert Keep(GetlineFrom(s, d, pos), skip) == rest;
    } else {
      assert Keep(GetlineFrom(s, d, pos), skip) == [token] + rest;
      ConcatAssoc(tokens, [token], rest);
    }
  }

  /**
   * The two overloads as written agree except on strings whose first
   * character is the delimiter, and on the empty string.
   */
  lemma SplitOverloadsAgree(s: string, d: char, options: Options)
    requires s != [] && s[0] != d
    ensures Scan(s, d, SkipEmpty(options), 0, 1) == Keep(GetlineFrom(s, d, 0), SkipEmpty(options))
  {
    ScanIsGetline(s, d, SkipEmpty(options), 0, 1);
  }

  /** ",a" split at ',' as written gives the single token ",a"; the intended tokens are "" and "a". */
  lemma LeadingDelimiterNotSplit()
    ensures Scan(",a", ',', false, 0, 1) == [",a"]
    ensures Keep(GetlineFrom(",a", ',', 0), false) == ["", "a"]
  {
    assert Scan(",a", ',', false, 0, 2) == [",a"[0..]];
    assert NextDelim(",a", ',', 0) == 0;
    assert NextDelim(",a", ',', 1) == 2;
    assert ",a"[1..2] == "a";
    assert GetlineFrom(",a", ',', 1) == ["a"];
    assert GetlineFrom(",a", ',', 0) == [""] + ["a"];
  }
}
