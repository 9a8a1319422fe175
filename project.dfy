/**
  * `ProjectService.createProject`: a project's folder is named after the
  * project, with everything but ASCII letters and digits replaced by `_`
  * and the letters lower-cased; the stored record keeps the name as given.
  * The database, the directory creation and `path.join` are parameters.
  */
module Projects {
  import opened Text

  /** The characters a folder name may hold: `a`-`z`, `0`-`9` and `_`. */
  predicate IsSafe(c: char) {
    ('a' <= c <= 'z') || IsDigit(c) || c == '_'
  }

  predicate AllSafe(s: string) {
    forall k :: 0 <= k < |s| ==> IsSafe(s[k])
  }

  /**
    * What `replace(/[^a-z0-9]/gi, '_')` makes of one character: ASCII
    * letters of either case and digits stay, anything else becomes `_`
    * once per UTF-16 code unit (the pattern has no `u` flag).
    */
  function Replacement(c: char): string {
    if IsAsciiLetter(c) || IsDigit(c) then [c]
    else if IsAstral(c) then "__"
    else "_"
  }

  /** `name.replace(/[^a-z0-9]/gi, '_')`. */
  function ReplaceUnsafe(s: string): string {
    if |s| == 0 then "" else Replacement(s[0]) + ReplaceUnsafe(s[1..])
  }

  /** `name.replace(/[^a-z0-9]/gi, '_').toLowerCase()`: the folder name of a project. */
  function SafeName(name: string): string {
    ToLower(ReplaceUnsafe(name))
  }

  /** What sanitising makes of one character. */
  function SafeChar(c: char): char {
    if IsAsciiLetter(c) then LowerChar(c) else if IsDigit(c) then c else '_'
  }

  lemma {:induction false} ReplaceUnsafeConcat(a: string, b: string)
    ensures ReplaceUnsafe(a + b) == ReplaceUnsafe(a) + ReplaceUnsafe(b)
  {
    if |a| == 0 {
      assert a + b == b;
    } else {
      assert (a + b)[1..] == a[1..] + b;
      ReplaceUnsafeConcat(a[1..], b);
      ConcatAssoc(Replacement(a[0]), ReplaceUnsafe(a[1..]), ReplaceUnsafe(b));
    }
  }

  /** Sanitising works character by character: a name's folder name is the folder names of its parts, joined. */
  lemma SafeNameConcat(a: string, b: string)
    ensures SafeName(a + b) == SafeName(a) + SafeName(b)
  {
    ReplaceUnsafeConcat(a, b);
    ToLowerConcat(ReplaceUnsafe(a), ReplaceUnsafe(b));
  }

  /**
    * One character: a letter is kept lower-cased, a digit is kept, and
    * anything else becomes one `_` per UTF-16 code unit.
    */
  lemma SafeNameOfChar(c: char)
    ensures SafeName([c]) == if IsAstral(c) && !IsAsciiLetter(c) && !IsDigit(c) then "__" else [SafeChar(c)]
  {
    assert ReplaceUnsafe([c]) == Replacement(c) + ReplaceUnsafe([]);
  }

  /** The folder name holds only `a`-`z`, `0`-`9` and `_`. */
  lemma {:induction false} SafeNameCharset(name: string)
    ensures AllSafe(SafeName(name))
  {
    if |name| > 0 {
      assert name == [name[0]] + name[1..];
      SafeNameConcat([name[0]], name[1..]);
      SafeNameOfChar(name[0]);
      SafeNameCharset(name[1..]);
    }
  }

  /** The folder name is as long as the name in JavaScript's terms: one character per UTF-16 code unit. */
  lemma {:induction false} SafeNameLength(name: string)
    ensures |SafeName(name)| == Utf16Length(name)
  {
    if |name| > 0 {
      assert name == [name[0]] + name[1..];
      SafeNameConcat([name[0]], name[1..]);
      SafeNameOfChar(name[0]);
      SafeNameLength(name[1..]);
    }
  }

  /**
    * A name without characters outside the Basic Multilingual Plane keeps
    * its length, and each position holds that character sanitised.
    */
  lemma {:induction false} SafeNamePositions(name: string)
    requires forall k :: 0 <= k < |name| ==> !IsAstral(name[k])
    ensures |SafeName(name)| == |name|
    ensures forall k :: 0 <= k < |name| ==> SafeName(name)[k] == SafeChar(name[k])
  {
    if |name| > 0 {
      var rest := name[1..];
      assert name == [name[0]] + rest;
      SafeNameConcat([name[0]], rest);
      SafeNameOfChar(name[0]);
      SafeNamePositions(rest);
      forall k | 1 <= k < |name|
        ensures SafeName(name)[k] == SafeChar(name[k])
      {
        assert name[k] == rest[k - 1];
      }
    }
  }

  /** Sanitising a folder name changes nothing. */
  lemma {:induction false} SafeNameIdempotent(name: string)
    ensures SafeName(SafeName(name)) == SafeName(name)
  {
    var s := SafeName(name);
    SafeNameCharset(name);
    SafeOnSafe(s);
  }

  /** A text of safe characters is its own folder name. */
  lemma {:induction false} SafeOnSafe(s: string)
    requires AllSafe(s)
    ensures SafeName(s) == s
  {
    if |s| > 0 {
      assert s == [s[0]] + s[1..];
      SafeNameConcat([s[0]], s[1..]);
      SafeNameOfChar(s[0]);
      SafeOnSafe(s[1..]);
    }
  }

  /** The data `createProject` hands to the database. */
  datatype ProjectData = ProjectData(name: string, path: string, userId: string)

  /** `path.join(root, '..', safeName)`. */
  type PathJoin = (string, string, string) -> string

  const Parent: string := ".."

  /**
    * `createProject`: the record keeps the name as given, and only its
    * folder uses the sanitised name; whether creating the folder fails does
    * not matter.
    */
  function CreateProject(userId: string, name: string, workspaceRoot: string, join: PathJoin, mkdirFailed: bool): (r: ProjectData)
    ensures r.name == name && r.userId == userId
    ensures r.path == join(workspaceRoot, Parent, SafeName(name)) && AllSafe(SafeName(name))
    ensures |SafeName(name)| == Utf16Length(name)
  {
    SafeNameCharset(name);
    SafeNameLength(name);
    ProjectData(name, join(workspaceRoot, Parent, SafeName(name)), userId)
  }

  /** Names that differ only in letter case or in the characters that get replaced share a folder. */
  lemma SharedFolder(userId: string, a: string, b: string, root: string, join: PathJoin, fa: bool, fb: bool)
    requires |a| == |b| && forall k :: 0 <= k < |a| ==> !IsAstral(a[k]) && !IsAstral(b[k]) && SafeChar(a[k]) == SafeChar(b[k])
    ensures CreateProject(userId, a, root, join, fa).path == CreateProject(userId, b, root, join, fb).path
  {
    SafeNamePositions(a);
    SafeNamePositions(b);
    assert SafeName(a) == SafeName(b);
  }
}
