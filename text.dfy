/**
  * The JavaScript string operations the server relies on (`includes`,
  * `indexOf`, `startsWith`, `trim`, `toLowerCase`, `substring(0, n)` in UTF-16 code units,
  * `replace` with a string pattern, `join`), given an exact meaning over
  * sequences of characters.
  */
module Text {

  datatype Option<+T> = None | Some(value: T)

  /** A value, or the message of the error the JavaScript code would throw. */
  datatype Result<+T> = Ok(value: T) | Err(message: string)

  /** `sub` occurs in `s` starting at index `i`. */
  predicate OccursAt(s: string, sub: string, i: nat) {
    i + |sub| <= |s| && s[i..i + |sub|] == sub
  }

  /** `s.indexOf(sub, from)`: the first index at or after `from` where `sub` occurs. */
  function IndexOf(s: string, sub: string, from: nat): (r: Option<nat>)
    ensures r.Some? ==> from <= r.value && OccursAt(s, sub, r.value)
    ensures forall k :: from <= k && (r.None? || k < r.value) ==> !OccursAt(s, sub, k)
    decreases |s| - from
  {
    if from + |sub| > |s| then None
    else if OccursAt(s, sub, from) then Some(from)
    else IndexOf(s, sub, from + 1)
  }

  /** `s.includes(sub)`. */
  predicate Contains(s: string, sub: string) {
    IndexOf(s, sub, 0).Some?
  }

  /** `s.startsWith(prefix)`. */
  predicate StartsWith(s: string, prefix: string) {
    OccursAt(s, prefix, 0)
  }


  /** `s.replace(pattern, replacement)` with a string pattern: only the first occurrence changes. */
  function ReplaceFirst(s: string, pattern: string, replacement: string): string {
    match IndexOf(s, pattern, 0)
    case None => s
    case Some(i) => s[..i] + replacement + s[i + |pattern|..]
  }

  /** `parts.join(separator)`. */
  function Join(parts: seq<string>, separator: string): string
    decreases |parts|
  {
    if |parts| == 0 then ""
    else if |parts| == 1 then parts[0]
    else parts[0] + separator + Join(parts[1..], separator)
  }

  /** The pieces with the separators put back between them. */
  function Weave(pieces: seq<string>, seps: seq<string>): string
    requires |pieces| == |seps| + 1
    decreases |seps|
  {
    if |seps| == 0 then pieces[0] else pieces[0] + seps[0] + Weave(pieces[1..], seps[1..])
  }

  lemma WeaveCons(piece: string, sep: string, pieces: seq<string>, seps: seq<string>)
    requires |pieces| == |seps| + 1
    ensures Weave([piece] + pieces, [sep] + seps) == piece + sep + Weave(pieces, seps)
  {
    assert ([piece] + pieces)[1..] == pieces;
    assert ([sep] + seps)[1..] == seps;
  }

  /** A character outside the Basic Multilingual Plane: JavaScript stores it as two UTF-16 code units. */
  predicate IsAstral(c: char) {
    c as int > 0xFFFF
  }

  /** The UTF-16 code units JavaScript stores a character in. */
  function Units(c: char): nat {
    if IsAstral(c) then 2 else 1
  }

  /** JavaScript's `length`: UTF-16 code units. */
  function Utf16Length(s: string): (n: nat)
    ensures n >= |s|
  {
    if |s| == 0 then 0 else Units(s[0]) + Utf16Length(s[1..])
  }

  /**
    * `s.substring(0, n)` for a non-negative `n`, counted in UTF-16 code
    * units: the longest prefix of `s` whose code units fit in `n`. Where `n`
    * falls inside a surrogate pair JavaScript keeps a lone high surrogate,
    * which a `char` cannot hold; the prefix stops before that character.
    */
  function Take(s: string, n: nat): (r: string)
    ensures |r| <= |s| && r == s[..|r|]
    ensures Utf16Length(r) <= n
    decreases |s|
  {
    if |s| == 0 || Units(s[0]) > n then ""
    else
      var rest := Take(s[1..], n - Units(s[0]));
      assert ([s[0]] + rest)[1..] == rest;
      [s[0]] + rest
  }

  /** The prefix is all of `s` when `s` fits in `n` units; otherwise its next character would not fit. */
  lemma {:induction false} TakeMaximal(s: string, n: nat)
    ensures Utf16Length(s) <= n ==> Take(s, n) == s
    ensures |Take(s, n)| < |s| ==> Utf16Length(Take(s, n)) + Units(s[|Take(s, n)|]) > n
    decreases |s|
  {
    if |s| > 0 && Units(s[0]) <= n {
      var rest := Take(s[1..], n - Units(s[0]));
      TakeMaximal(s[1..], n - Units(s[0]));
      assert Take(s, n) == [s[0]] + rest;
      assert ([s[0]] + rest)[1..] == rest;
      if |rest| < |s| - 1 {
        assert s[|Take(s, n)|] == s[1..][|rest|];
      } else {
        assert s == [s[0]] + s[1..];
      }
    }
  }

  /** Within the Basic Multilingual Plane a code unit is a character, and `substring(0, n)` keeps the first `n`. */
  lemma {:induction false} TakeBmp(s: string, n: nat)
    requires forall k :: 0 <= k < |s| ==> !IsAstral(s[k])
    ensures Take(s, n) == if n <= |s| then s[..n] else s
    decreases |s|
  {
    if |s| > 0 && n > 0 {
      TakeBmp(s[1..], n - 1);
      assert s == [s[0]] + s[1..];
    }
  }

  /** The characters JavaScript's `trim` removes: WhiteSpace and LineTerminator. */
  predicate IsSpace(c: char) {
    c == '\t' || c == '\n' || c == '\U{000B}' || c == '\U{000C}' || c == '\r' || c == ' '
    || c == '\U{00A0}' || c == '\U{1680}' || ('\U{2000}' <= c <= '\U{200A}')
    || c == '\U{2028}' || c == '\U{2029}' || c == '\U{202F}' || c == '\U{205F}'
    || c == '\U{3000}' || c == '\U{FEFF}'
  }

  function TrimStart(s: string): string
    decreases |s|
  {
    if |s| > 0 && IsSpace(s[0]) then TrimStart(s[1..]) else s
  }

  function TrimEnd(s: string): string
    decreases |s|
  {
    if |s| > 0 && IsSpace(s[|s| - 1]) then TrimEnd(s[..|s| - 1]) else s
  }

  /** `s.trim()`. */
  function Trim(s: string): string {
    TrimEnd(TrimStart(s))
  }

  /** Lower-cases the ASCII letters and leaves every other character alone. */
  function LowerChar(c: char): char {
    if 'A' <= c <= 'Z' then (c as int + 32) as char else c
  }

  /** `s.toLowerCase()` on ASCII letters. */
  function ToLower(s: string): string {
    seq(|s|, i requires 0 <= i < |s| => LowerChar(s[i]))
  }

  predicate IsAsciiLetter(c: char) {
    ('a' <= c <= 'z') || ('A' <= c <= 'Z')
  }

  predicate IsDigit(c: char) {
    '0' <= c <= '9'
  }

  predicate AllLetters(w: string) {
    forall k :: 0 <= k < |w| ==> IsAsciiLetter(w[k])
  }

  /** `s.toUpperCase()` on ASCII letters (used to state case-insensitivity). */
  function ToUpper(s: string): string {
    seq(|s|, i requires 0 <= i < |s| => if 'a' <= s[i] <= 'z' then (s[i] as int - 32) as char else s[i])
  }

  lemma ContainsIff(s: string, sub: string)
    ensures Contains(s, sub) <==> exists i: nat :: OccursAt(s, sub, i)
  {
    if exists i: nat :: OccursAt(s, sub, i) {
      var i: nat :| OccursAt(s, sub, i);
      assert IndexOf(s, sub, 0).Some?;
    }
  }

  lemma ContainsAt(s: string, sub: string, i: nat)
    requires OccursAt(s, sub, i)
    ensures Contains(s, sub)
  {
    ContainsIff(s, sub);
  }

  lemma ConcatAssoc<T>(a: seq<T>, b: seq<T>, c: seq<T>)
    ensures a + b + c == a + (b + c)
  {
  }

  /** A suffix is the slice up to a later index followed by the suffix from there. */
  lemma SliceSplit<T>(s: seq<T>, a: nat, b: nat)
    requires a <= b <= |s|
    ensures s[a..] == s[a..b] + s[b..]
  {
  }

  /** The middle of three concatenated pieces, read back by position. */
  lemma MiddleOfConcat<T>(a: seq<T>, m: seq<T>, b: seq<T>)
    ensures (a + m + b)[|a|..|a| + |m|] == m
    ensures forall i :: 0 <= i < |m| ==> (a + m + b)[|a| + i] == m[i]
  {
    var s := a + m + b;
    forall i | 0 <= i < |m|
      ensures s[|a| + i] == m[i]
    {
      assert s[|a| + i] == (a + m)[|a| + i];
    }
    assert s[|a|..|a| + |m|] == m;
  }

  lemma SliceOfSlice<T>(s: seq<T>, a: nat, b: nat, c: nat, d: nat)
    requires a <= b <= |s| && c <= d <= b - a
    ensures s[a..b][c..d] == s[a + c..a + d]
  {
    forall i | 0 <= i < d - c
      ensures s[a..b][c..d][i] == s[a + c..a + d][i]
    {
      assert s[a..b][c..d][i] == s[a..b][c + i];
    }
  }

  /** `a + b` occurs at `k` exactly when `a` occurs there and `b` right after it. */
  lemma OccursConcat(s: string, a: string, b: string, k: nat)
    ensures OccursAt(s, a + b, k) <==> OccursAt(s, a, k) && OccursAt(s, b, k + |a|)
  {
    if OccursAt(s, a + b, k) {
      assert s[k..k + |a|] == s[k..k + |a| + |b|][..|a|];
      assert s[k + |a|..k + |a| + |b|] == s[k..k + |a| + |b|][|a|..];
    }
    if OccursAt(s, a, k) && OccursAt(s, b, k + |a|) {
      assert s[k..k + |a| + |b|] == s[k..k + |a|] + s[k + |a|..k + |a| + |b|];
    }
  }

  lemma OccursConcat3(s: string, a: string, b: string, c: string, k: nat)
    ensures OccursAt(s, a + (b + c), k) <==> OccursAt(s, a, k) && OccursAt(s, b, k + |a|) && OccursAt(s, c, k + |a| + |b|)
  {
    OccursConcat(s, a, b + c, k);
    OccursConcat(s, b, c, k + |a|);
  }

  lemma OccursConcat5(s: string, a: string, b: string, c: string, d: string, e: string, k: nat)
    ensures OccursAt(s, a + (b + (c + (d + e))), k) <==>
      OccursAt(s, a, k) && OccursAt(s, b, k + |a|) && OccursAt(s, c, k + |a| + |b|)
      && OccursAt(s, d, k + |a| + |b| + |c|) && OccursAt(s, e, k + |a| + |b| + |c| + |d|)
  {
    OccursConcat3(s, a, b, c + (d + e), k);
    OccursConcat3(s, c, d, e, k + |a| + |b|);
  }

  /** An occurrence inside `a` or inside `b` is an occurrence inside `a + b`. */
  lemma ContainsInConcat(a: string, b: string, sub: string)
    ensures Contains(a, sub) ==> Contains(a + b, sub)
    ensures Contains(b, sub) ==> Contains(a + b, sub)
  {
    ContainsIff(a, sub);
    ContainsIff(b, sub);
    if Contains(a, sub) {
      var i: nat :| OccursAt(a, sub, i);
      assert (a + b)[i..i + |sub|] == a[i..i + |sub|];
      ContainsAt(a + b, sub, i);
    }
    if Contains(b, sub) {
      var i: nat :| OccursAt(b, sub, i);
      assert (a + b)[|a| + i..|a| + i + |sub|] == b[i..i + |sub|];
      ContainsAt(a + b, sub, |a| + i);
    }
  }

  /** An occurrence of a word of letters that straddles `a` and `b` puts letters on both sides. */
  lemma StraddleLetters(a: string, b: string, w: string, i: nat)
    requires AllLetters(w) && OccursAt(a + b, w, i)
    ensures i < |a| < i + |w| ==> IsAsciiLetter(a[|a| - 1]) && IsAsciiLetter(b[0])
  {
    if i < |a| < i + |w| {
      assert w[|a| - 1 - i] == a[|a| - 1];
      assert w[|a| - i] == b[0];
    }
  }

  /**
    * A word made of letters cannot straddle a boundary next to a non-letter:
    * it occurs in `a + b` exactly when it occurs in `a` or in `b`.
    */
  lemma ContainsAcrossBoundary(a: string, b: string, w: string)
    requires AllLetters(w)
    requires |a| == 0 || |b| == 0 || !IsAsciiLetter(a[|a| - 1]) || !IsAsciiLetter(b[0])
    ensures Contains(a + b, w) <==> Contains(a, w) || Contains(b, w)
  {
    ContainsInConcat(a, b, w);
    ContainsIff(a + b, w);
    if i: nat :| OccursAt(a + b, w, i) {
      StraddleLetters(a, b, w, i);
      if i + |w| <= |a| {
        assert a[i..i + |w|] == (a + b)[i..i + |w|];
        ContainsAt(a, w, i);
      } else {
        assert b[i - |a|..i - |a| + |w|] == (a + b)[i..i + |w|];
        ContainsAt(b, w, i - |a|);
      }
    }
  }

  lemma ToLowerConcat(a: string, b: string)
    ensures ToLower(a + b) == ToLower(a) + ToLower(b)
  {
  }

  lemma ToLowerIdempotent(s: string)
    ensures ToLower(ToLower(s)) == ToLower(s)
  {
  }

  lemma ToLowerOfUpper(s: string)
    ensures ToLower(ToUpper(s)) == ToLower(s)
  {
  }

  /** Character-by-character comparison; it unfolds on literal strings. */
  predicate MatchesFrom(s: string, sub: string, i: nat, j: nat)
    decreases |sub| - j
  {
    j >= |sub| || (i + j < |s| && s[i + j] == sub[j] && MatchesFrom(s, sub, i, j + 1))
  }

  /** A search that unfolds on literal strings: -1 when `sub` does not occur at or after `from`. */
  function Scan(s: string, sub: string, from: nat): int
    decreases |s| - from
  {
    if from + |sub| > |s| then -1
    else if MatchesFrom(s, sub, from, 0) then from
    else Scan(s, sub, from + 1)
  }

  lemma MatchesFromOccurs(s: string, sub: string, i: nat, j: nat)
    requires j <= |sub| && i + |sub| <= |s|
    requires s[i + j..i + |sub|] == sub[j..]
    ensures MatchesFrom(s, sub, i, j)
    decreases |sub| - j
  {
    if j < |sub| {
      assert s[i + j] == s[i + j..i + |sub|][0];
      MatchesFromOccurs(s, sub, i, j + 1);
    }
  }

  lemma {:induction false} ScanSound(s: string, sub: string, from: nat)
    requires Scan(s, sub, from) == -1
    ensures forall k :: from <= k ==> !OccursAt(s, sub, k)
    decreases |s| - from
  {
    if from + |sub| <= |s| {
      if OccursAt(s, sub, from) {
        MatchesFromOccurs(s, sub, from, 0);
      }
      ScanSound(s, sub, from + 1);
    }
  }

  /** A search that succeeds finds the first occurrence: none lies between `from` and the index it returns. */
  lemma {:induction false} ScanFirst(s: string, sub: string, from: nat)
    requires Scan(s, sub, from) >= 0
    ensures from <= Scan(s, sub, from)
    ensures forall p :: from <= p < Scan(s, sub, from) ==> !OccursAt(s, sub, p)
    decreases |s| - from
  {
    if !MatchesFrom(s, sub, from, 0) {
      if OccursAt(s, sub, from) {
        MatchesFromOccurs(s, sub, from, 0);
      }
      ScanFirst(s, sub, from + 1);
    }
  }

  /** `!s.includes(sub)`, established by running the search on a literal. */
  lemma AbsentByScan(s: string, sub: string)
    requires Scan(s, sub, 0) == -1
    ensures !Contains(s, sub)
  {
    ScanSound(s, sub, 0);
    ContainsIff(s, sub);
  }
}
