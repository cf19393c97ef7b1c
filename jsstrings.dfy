/** The JavaScript string operations the registry and the invoker rely on,
    for strings given as sequences of characters. */
module JsStrings {

  /** `t` occurs in `s` starting at position `k`. */
  predicate OccursAt(s: string, t: string, k: nat) {
    k + |t| <= |s| && s[k..k + |t|] == t
  }

  /** `s.indexOf(t, from)`: the least position at or after `from` where `t`
      occurs in `s`, or -1 when there is none. */
  function IndexOfFrom(s: string, t: string, from: nat): (r: int)
    requires from <= |s|
    ensures r == -1 || (from <= r && OccursAt(s, t, r))
    ensures forall k :: from <= k && (r == -1 || k < r) ==> !OccursAt(s, t, k)
    decreases |s| - from
  {
    if from + |t| > |s| then -1
    else if OccursAt(s, t, from) then from
    else IndexOfFrom(s, t, from + 1)
  }

  /** `s.indexOf(t)`. */
  function IndexOf(s: string, t: string): int {
    IndexOfFrom(s, t, 0)
  }

  /** `s.indexOf(t)` is 0 exactly when `t` is a prefix of `s`. */
  lemma IndexOfZeroIffPrefix(s: string, t: string)
    ensures IndexOf(s, t) == 0 <==> t <= s
  {
    if t <= s {
      assert OccursAt(s, t, 0);
    }
  }

  /** The replacement text of `String.prototype.replace` with a string
      pattern (GetSubstitution of ECMA-262 with no capture groups): `$$`
      gives `$`, `$&` the matched text, `` $` `` the text before the match,
      `$'` the text after it; every other character, `$` included, is
      copied. */
  function Substitution(rep: string, matched: string, before: string, after: string): string
    decreases |rep|
  {
    if |rep| == 0 then ""
    else if rep[0] == '$' && |rep| >= 2 && rep[1] in "$&`'" then
      (if rep[1] == '$' then "$"
       else if rep[1] == '&' then matched
       else if rep[1] == '`' then before
       else after)
      + Substitution(rep[2..], matched, before, after)
    else [rep[0]] + Substitution(rep[1..], matched, before, after)
  }

  /** A replacement without `$` is inserted literally. */
  lemma {:induction false} SubstitutionLiteral(rep: string, matched: string, before: string, after: string)
    requires '$' !in rep
    ensures Substitution(rep, matched, before, after) == rep
    decreases |rep|
  {
    if |rep| > 0 {
      assert '$' !in rep[1..];
      SubstitutionLiteral(rep[1..], matched, before, after);
      assert rep == [rep[0]] + rep[1..];
    }
  }

  /** `s.replace(pat, rep)` with a string pattern: only the first occurrence
      of `pat` is replaced. */
  function ReplaceFirst(s: string, pat: string, rep: string): string {
    var i := IndexOf(s, pat);
    if i == -1 then s
    else s[..i] + Substitution(rep, pat, s[..i], s[i + |pat|..]) + s[i + |pat|..]
  }

  /** When `pat` does not occur, `replace` returns `s` itself, whatever the
      replacement. */
  lemma ReplaceFirstAbsent(s: string, pat: string, rep: string)
    requires forall k: nat :: !OccursAt(s, pat, k)
    ensures ReplaceFirst(s, pat, rep) == s
  {
    assert IndexOf(s, pat) == -1;
  }

  /** When `pat` occurs, `replace` splices the substituted replacement in
      place of its first occurrence and keeps the rest. */
  lemma ReplaceFirstSplice(s: string, pat: string, rep: string, i: nat)
    requires OccursAt(s, pat, i) && forall k: nat :: k < i ==> !OccursAt(s, pat, k)
    ensures ReplaceFirst(s, pat, rep) == s[..i] + Substitution(rep, pat, s[..i], s[i + |pat|..]) + s[i + |pat|..]
  {
    assert IndexOf(s, pat) == i;
  }

  /** In a replacement, `$&` stands for the matched text, so a value `$&`
      puts the pattern back. */
  lemma SubstitutionMatched(matched: string, before: string, after: string)
    ensures Substitution("$&", matched, before, after) == matched
  {
    assert "$&"[2..] == "";
  }

  /** With a replacement without `$`, exactly the first occurrence of `pat`
      is swapped for `rep` itself. */
  lemma ReplaceFirstSpec(s: string, pat: string, rep: string)
    requires '$' !in rep
    ensures forall i: nat :: OccursAt(s, pat, i) && (forall k: nat :: k < i ==> !OccursAt(s, pat, k)) ==>
              ReplaceFirst(s, pat, rep) == s[..i] + rep + s[i + |pat|..]
  {
    forall i: nat | OccursAt(s, pat, i) && (forall k: nat :: k < i ==> !OccursAt(s, pat, k))
      ensures ReplaceFirst(s, pat, rep) == s[..i] + rep + s[i + |pat|..]
    {
      ReplaceFirstSplice(s, pat, rep, i);
      SubstitutionLiteral(rep, pat, s[..i], s[i + |pat|..]);
    }
  }

  /** Replacing a character that does not occur changes nothing. */
  lemma ReplaceAbsentChar(s: string, c: char, rep: string)
    requires c !in s
    ensures ReplaceFirst(s, [c], rep) == s
  {
    forall k: nat ensures !OccursAt(s, [c], k) {
      if k + 1 <= |s| {
        assert s[k..k + 1] == [s[k]];
      }
    }
    ReplaceFirstAbsent(s, [c], rep);
  }

  /** `s.split(c)` with a one-character separator. */
  function Split(s: string, c: char): (parts: seq<string>)
    ensures |parts| >= 1
    ensures forall i :: 0 <= i < |parts| ==> c !in parts[i]
    decreases |s|
  {
    if s == [] then [[]]
    else
      var rest := Split(s[1..], c);
      if s[0] == c then [[]] + rest
      else [[s[0]] + rest[0]] + rest[1..]
  }

  /** `parts.join(c)`. */
  function Join(parts: seq<string>, c: char): string
    decreases |parts|
  {
    if |parts| == 0 then ""
    else if |parts| == 1 then parts[0]
    else parts[0] + [c] + Join(parts[1..], c)
  }

  /** Joining one more piece appends the separator and that piece. */
  lemma {:induction false} JoinSnoc(parts: seq<string>, x: string, c: char)
    requires |parts| >= 1
    ensures Join(parts + [x], c) == Join(parts, c) + [c] + x
    decreases |parts|
  {
    if |parts| > 1 {
      assert (parts + [x])[1..] == parts[1..] + [x];
      JoinSnoc(parts[1..], x, c);
    }
  }

  /** Joining the pieces of a split gives the string back. */
  lemma {:induction false} JoinSplit(s: string, c: char)
    ensures Join(Split(s, c), c) == s
    decreases |s|
  {
    if s != [] {
      JoinSplit(s[1..], c);
      var rest := Split(s[1..], c);
      if s[0] != c && |rest| > 1 {
        assert Join(rest, c) == rest[0] + [c] + Join(rest[1..], c);
      }
    }
  }

  /** The first two pieces of a split, read off the string itself. */
  lemma SplitPieces(s: string, c: char)
    ensures |Split(s, c)| == 1 <==> c !in s
    ensures c !in s ==> Split(s, c) == [s]
    ensures Split(s, c)[0] <= s
    ensures |Split(s, c)| > 1 ==> Split(s, c)[0] + [c] + Split(s, c)[1] <= s
    ensures |Split(s, c)| == 2 ==> Split(s, c)[0] + [c] + Split(s, c)[1] == s
    ensures |Split(s, c)| > 2 ==> Split(s, c)[0] + [c] + Split(s, c)[1] + [c] <= s
  {
    var parts := Split(s, c);
    JoinSplit(s, c);
    if |parts| > 1 {
      assert s == parts[0] + [c] + Join(parts[1..], c);
      assert s[|parts[0]|] == c;
      if |parts| > 2 {
        assert Join(parts[1..], c) == parts[1] + [c] + Join(parts[2..], c);
      }
    }
  }

  /** A string without the separator splits into itself alone. */
  lemma {:induction false} SplitWithoutSeparator(a: string, c: char)
    requires c !in a
    ensures Split(a, c) == [a]
    decreases |a|
  {
    if a != [] {
      assert c !in a[1..];
      SplitWithoutSeparator(a[1..], c);
      assert a == [a[0]] + a[1..];
    }
  }

  /** The first separator cuts off the first piece. */
  lemma {:induction false} SplitAtSeparator(a: string, c: char, b: string)
    requires c !in a
    ensures Split(a + [c] + b, c) == [a] + Split(b, c)
    decreases |a|
  {
    if a == [] {
      assert a + [c] + b == [c] + b;
      assert ([c] + b)[1..] == b;
    } else {
      assert (a + [c] + b)[1..] == a[1..] + [c] + b;
      assert c !in a[1..];
      SplitAtSeparator(a[1..], c, b);
      assert (a + [c] + b)[0] == a[0] != c;
      assert a == [a[0]] + a[1..];
    }
  }

  /** Splitting a join of separator-free pieces gives the pieces back. */
  lemma {:induction false} SplitJoin(parts: seq<string>, c: char)
    requires |parts| >= 1
    requires forall i :: 0 <= i < |parts| ==> c !in parts[i]
    ensures Split(Join(parts, c), c) == parts
    decreases |parts|
  {
    if |parts| == 1 {
      SplitWithoutSeparator(parts[0], c);
    } else {
      SplitJoin(parts[1..], c);
      SplitAtSeparator(parts[0], c, Join(parts[1..], c));
    }
  }

  /** The concatenation of all pieces (`Buffer.concat`, `Array.join('')`). */
  function Concat(parts: seq<string>): string
    decreases |parts|
  {
    if parts == [] then "" else Concat(parts[..|parts| - 1]) + parts[|parts| - 1]
  }

  /** The concatenation of `f` applied to each piece, in order. */
  function ConcatMap(f: string -> string, parts: seq<string>): string
    decreases |parts|
  {
    if parts == [] then "" else ConcatMap(f, parts[..|parts| - 1]) + f(parts[|parts| - 1])
  }

  /** One more piece of a prefix contributes after the others. */
  lemma ConcatMapPrefix(f: string -> string, parts: seq<string>, i: nat)
    requires i < |parts|
    ensures ConcatMap(f, parts[..i + 1]) == ConcatMap(f, parts[..i]) + f(parts[i])
  {
    assert parts[..i + 1][..i] == parts[..i];
  }

  /** Two stretches of pieces contribute in turn. */
  lemma {:induction false} ConcatMapAppend(f: string -> string, a: seq<string>, b: seq<string>)
    ensures ConcatMap(f, a + b) == ConcatMap(f, a) + ConcatMap(f, b)
    decreases |b|
  {
    if b == [] {
      assert a + b == a;
    } else {
      var ab := a + b;
      assert ab[..|ab| - 1] == a + b[..|b| - 1];
      ConcatMapAppend(f, a, b[..|b| - 1]);
    }
  }

  /** `toLowerCase` on one character; letters outside A-Z are kept. */
  function LowerChar(ch: char): char {
    if 'A' <= ch <= 'Z' then (ch as int - 'A' as int + 'a' as int) as char else ch
  }

  /** `toUpperCase` on one character; letters outside a-z are kept. */
  function UpperChar(ch: char): char {
    if 'a' <= ch <= 'z' then (ch as int - 'a' as int + 'A' as int) as char else ch
  }

  /** `s.toLowerCase()`. */
  function ToLower(s: string): string {
    seq(|s|, i requires 0 <= i < |s| => LowerChar(s[i]))
  }

  /** `s.charAt(0).toUpperCase() + s.slice(1)`. */
  function UpperFirst(s: string): string {
    if s == "" then "" else [UpperChar(s[0])] + s[1..]
  }

  /** The characters the regular-expression `.` does not match. */
  predicate IsLineTerminator(ch: char) {
    ch == '\n' || ch == '\r' || ch == '\U{2028}' || ch == '\U{2029}'
  }

  /** Every character of `s` is matched by `.`. */
  predicate SingleLine(s: string) {
    forall k :: 0 <= k < |s| ==> !IsLineTerminator(s[k])
  }

  /** `/{.*}/.test(s)`: some `{` is followed, later on the same line, by a `}`. */
  predicate MatchesBraces(s: string) {
    exists i, j :: 0 <= i < j < |s| && s[i] == '{' && s[j] == '}' && SingleLine(s[i + 1..j])
  }

  /** `/^{.*}$/.test(s)`: `s` starts with `{`, ends with `}` and is one line. */
  predicate MatchesWholeBraces(s: string) {
    2 <= |s| && s[0] == '{' && s[|s| - 1] == '}' && SingleLine(s)
  }
}
