/**
  * The action blocks the agent recognises in generated text, read exactly as
  * the two global regular expressions of the agent service read them:
  *
  *   file blocks    `>>> START_FILE: (.*?)\n([\s\S]*?)>>> END_FILE`
  *   command lines  `>>> EXEC_CMD: (.*?)(?:\n|$)`
  *
  * `.` does not match a line terminator; lazy groups stop at the first place
  * the rest of the pattern matches; `exec` with the `g` flag finds the earliest
  * match at or after `lastIndex` and moves `lastIndex` to the end of it.
  *
  * Also here: the outcome fragments that replace each block, and the two
  * rewriting passes as pure functions of the text, of the file-system state
  * and of the oracles that decide whether a write or a command fails.
  */
module Blocks {
  import opened Text

  /** The head of a file block, up to and including the space before the path. */
  const FileStart: string := ">>> START_FILE: "
  /** The closing marker of a file block. */
  const FileEnd: string := ">>> END_FILE"
  /** The head of a command line, up to and including the space before the command. */
  const CmdStart: string := ">>> EXEC_CMD: "
  /** The markers the router tests with `includes` before running a pass. */
  const FileMarker: string := ">>> START_FILE:"
  const CmdMarker: string := ">>> EXEC_CMD:"

  /** The markers the router looks for are the heads of the patterns, without the space. */
  lemma MarkersAreHeads()
    ensures FileStart == FileMarker + " " && CmdStart == CmdMarker + " "
  {
  }

  /** The characters a regular-expression `.` refuses. */
  predicate IsLineTerminator(c: char) {
    c == '\n' || c == '\r' || c == '\U{2028}' || c == '\U{2029}'
  }

  predicate NoLineTerminator(s: string) {
    '\n' !in s && '\r' !in s && '\U{2028}' !in s && '\U{2029}' !in s
  }

  /** No line terminator between indices `from` (included) and `to` (excluded) of `s`. */
  predicate LineFree(s: string, from: nat, to: nat) {
    forall i :: from <= i < to && i < |s| ==> !IsLineTerminator(s[i])
  }

  lemma LineFreeSlice(s: string, from: nat, to: nat)
    requires from <= to <= |s|
    ensures LineFree(s, from, to) <==> NoLineTerminator(s[from..to])
  {
    var t := s[from..to];
    if LineFree(s, from, to) {
      forall c | c in t
        ensures !IsLineTerminator(c)
      {
        var x :| 0 <= x < |t| && t[x] == c;
        assert t[x] == s[from + x];
      }
    }
    if NoLineTerminator(t) {
      forall i | from <= i < to
        ensures !IsLineTerminator(s[i])
      {
        assert s[i] == t[i - from];
      }
    }
  }

  /** How far `.*?` can reach from `from`: the first line terminator, or the end of `s`. */
  function LineEnd(s: string, from: nat): (r: nat)
    requires from <= |s|
    ensures from <= r <= |s|
    ensures LineFree(s, from, r)
    ensures r < |s| ==> IsLineTerminator(s[r])
    decreases |s| - from
  {
    if from == |s| || IsLineTerminator(s[from]) then from
    else LineEnd(s, from + 1)
  }

  /** The first line terminator at or after `from` is the one at `r`. */
  lemma {:induction false} LineEndAt(s: string, from: nat, r: nat)
    requires from <= r <= |s|
    requires LineFree(s, from, r)
    requires r < |s| ==> IsLineTerminator(s[r])
    ensures LineEnd(s, from) == r
    decreases r - from
  {
    if from < r {
      LineEndAt(s, from + 1, r);
    }
  }

  /** `FileEnd` first occurs in `content + FileEnd` at the very end: the lazy content group stops there. */
  predicate EndsFirst(content: string) {
    forall p :: 0 <= p < |content| ==> !OccursAt(content + FileEnd, FileEnd, p)
  }

  /** One match of the file-block pattern: where it starts, the path group and the content group. */
  datatype FileBlock = FileBlock(start: nat, path: string, content: string) {
    /** The full match. */
    function Text(): string {
      FileStart + (path + ("\n" + (content + FileEnd)))
    }

    /** `lastIndex` after this match. */
    function End(): nat {
      start + |Text()|
    }

    /** What a match of the pattern always looks like. */
    predicate WellFormed() {
      NoLineTerminator(path) && EndsFirst(content)
    }

    /** The pieces of `Text()` stand in `s` one after the other from `start`. */
    predicate PlacedIn(s: string) {
      var j := start + |FileStart| + |path|;
      OccursAt(s, FileStart, start) && OccursAt(s, path, start + |FileStart|) && OccursAt(s, "\n", j)
      && OccursAt(s, content, j + 1) && OccursAt(s, FileEnd, j + 1 + |content|)
    }
  }

  /** The file-block pattern tried at index `k` of `s`. */
  function FileBlockAt(s: string, k: nat): (r: Option<FileBlock>)
    ensures r.Some? ==> r.value.start == k && r.value.End() <= |s|
  {
    if !OccursAt(s, FileStart, k) then None
    else
      var j := LineEnd(s, k + |FileStart|);
      if j == |s| || s[j] != '\n' then None
      else match IndexOf(s, FileEnd, j + 1)
        case None => None
        case Some(m) =>
          assert OccursAt(s, FileEnd, m);
          Some(FileBlock(k, s[k + |FileStart|..j], s[j + 1..m]))
  }

  /** Whatever the pattern matches is a well-formed block whose pieces stand where it says. */
  lemma FileBlockAtSound(s: string, k: nat)
    ensures FileBlockAt(s, k).Some? ==> FileBlockAt(s, k).value.WellFormed() && FileBlockAt(s, k).value.PlacedIn(s)
  {
    if OccursAt(s, FileStart, k) {
      var j := LineEnd(s, k + |FileStart|);
      if j < |s| && s[j] == '\n' && IndexOf(s, FileEnd, j + 1).Some? {
        MatchedBlock(s, k, j, IndexOf(s, FileEnd, j + 1).value);
      }
    }
  }

  /** The pieces the pattern consumed are those of a well-formed block. */
  lemma MatchedBlock(s: string, k: nat, j: nat, m: nat)
    requires OccursAt(s, FileStart, k) && k + |FileStart| <= j < m <= |s| && s[j] == '\n'
    requires LineFree(s, k + |FileStart|, j)
    requires OccursAt(s, FileEnd, m) && forall p :: j + 1 <= p < m ==> !OccursAt(s, FileEnd, p)
    ensures var b := FileBlock(k, s[k + |FileStart|..j], s[j + 1..m]);
      b.WellFormed() && b.PlacedIn(s)
  {
    LineFreeSlice(s, k + |FileStart|, j);
    assert s[j..j + 1] == [s[j]];
    EndsFirstOfSearch(s, j + 1, m);
  }

  /** A block's pieces stand in `s` exactly when its whole text does. */
  lemma PlacedInText(s: string, b: FileBlock)
    ensures b.PlacedIn(s) <==> OccursAt(s, b.Text(), b.start)
  {
    OccursConcat5(s, FileStart, b.path, "\n", b.content, FileEnd, b.start);
  }

  /** The content found by the lazy search ends at its first closing marker. */
  lemma EndsFirstOfSearch(s: string, from: nat, m: nat)
    requires from <= m && OccursAt(s, FileEnd, m)
    requires forall k :: from <= k < m ==> !OccursAt(s, FileEnd, k)
    ensures EndsFirst(s[from..m])
  {
    var c := s[from..m];
    assert c + FileEnd == s[from..m + |FileEnd|];
    forall p | 0 <= p < |c|
      ensures !OccursAt(c + FileEnd, FileEnd, p)
    {
      SliceOfOccurrence(s, c + FileEnd, from, p, p + |FileEnd|);
      assert !OccursAt(s, FileEnd, from + p);
    }
  }

  /** Any stretch of an occurrence of `t` in `s` is the same stretch of `t`. */
  lemma SliceOfOccurrence(s: string, t: string, k: nat, a: nat, b: nat)
    requires OccursAt(s, t, k) && a <= b <= |t|
    ensures s[k + a..k + b] == t[a..b]
  {
    forall x | 0 <= x < b - a
      ensures s[k + a..k + b][x] == t[a..b][x]
    {
      assert s[k..k + |t|][a + x] == s[k + a + x];
    }
  }

  /** `IndexOf` finds an occurrence that nothing between `from` and it precedes. */
  lemma IndexOfAt(s: string, sub: string, from: nat, m: nat)
    requires from <= m && OccursAt(s, sub, m)
    requires forall k :: from <= k < m ==> !OccursAt(s, sub, k)
    ensures IndexOf(s, sub, from) == Some(m)
  {
  }

  /** The lazy path group stops at the newline after a path with no line terminator. */
  lemma PathSearch(s: string, path: string, from: nat)
    requires NoLineTerminator(path) && OccursAt(s, path, from) && OccursAt(s, "\n", from + |path|)
    ensures from + |path| < |s| && s[from + |path|] == '\n' && LineEnd(s, from) == from + |path|
  {
    var j := from + |path|;
    assert s[j] == s[j..j + 1][0];
    LineFreeSlice(s, from, j);
    LineEndAt(s, from, j);
  }

  /** The lazy content group of a well-formed block stops at the block's own closing marker. */
  lemma ContentSearch(s: string, content: string, from: nat)
    requires EndsFirst(content) && OccursAt(s, content, from) && OccursAt(s, FileEnd, from + |content|)
    ensures IndexOf(s, FileEnd, from) == Some(from + |content|)
  {
    var tail := content + FileEnd;
    var m := from + |content|;
    OccursConcat(s, content, FileEnd, from);
    forall p | from <= p < m
      ensures !OccursAt(s, FileEnd, p)
    {
      SliceOfOccurrence(s, tail, from, p - from, p - from + |FileEnd|);
      assert !OccursAt(tail, FileEnd, p - from);
    }
    IndexOfAt(s, FileEnd, from, m);
  }

  /**
    * The converse of `FileBlockAt`'s contract: wherever the text of a
    * well-formed block occurs, the pattern matches it, and matches nothing else.
    */
  lemma FileBlockAtText(s: string, b: FileBlock)
    requires b.WellFormed() && OccursAt(s, b.Text(), b.start)
    ensures FileBlockAt(s, b.start) == Some(b)
  {
    PlacedInText(s, b);
    FileBlockAtPlaced(s, b);
  }

  lemma FileBlockAtPlaced(s: string, b: FileBlock)
    requires b.WellFormed() && b.PlacedIn(s)
    ensures FileBlockAt(s, b.start) == Some(b)
  {
    var i := b.start + |FileStart|;
    var j := i + |b.path|;
    var m := j + 1 + |b.content|;
    assert FileBlockAt(s, b.start) == Some(FileBlock(b.start, s[i..j], s[j + 1..m])) by {
      PathSearch(s, b.path, i);
      ContentSearch(s, b.content, j + 1);
      FileBlockAtFound(s, b.start, j, m);
    }
    assert s[i..j] == b.path && s[j + 1..m] == b.content;
  }

  /** What the pattern yields at `k` once the end of the path and the closing marker are located. */
  lemma FileBlockAtFound(s: string, k: nat, j: nat, m: nat)
    requires OccursAt(s, FileStart, k) && k + |FileStart| <= j < |s| && s[j] == '\n'
    requires LineEnd(s, k + |FileStart|) == j && IndexOf(s, FileEnd, j + 1) == Some(m)
    ensures FileBlockAt(s, k) == Some(FileBlock(k, s[k + |FileStart|..j], s[j + 1..m]))
  {
  }

  /** Every copy of a well-formed block's text is a match of the pattern. */
  lemma FileBlockAtCopy(s: string, b: FileBlock, p: nat)
    requires b.WellFormed()
    ensures OccursAt(s, b.Text(), p) ==> FileBlockAt(s, p) == Some(b.(start := p))
  {
    if OccursAt(s, b.Text(), p) {
      FileBlockAtText(s, b.(start := p));
    }
  }

  /** A well-formed block placed between any two texts is a match where it starts. */
  lemma FileBlockInContext(pre: string, b: FileBlock, post: string)
    requires b.WellFormed() && b.start == |pre|
    ensures FileBlockAt(pre + b.Text() + post, b.start) == Some(b)
  {
    var s := pre + b.Text() + post;
    assert s[b.start..b.End()] == b.Text();
    FileBlockAtText(s, b);
  }

  /** Two well-formed blocks laid out in a text, with anything before and between them, are both matches. */
  lemma TwoBlocksAccepted(pre: string, a: FileBlock, mid: string, b: FileBlock)
    requires a.WellFormed() && b.WellFormed()
    requires a.start == |pre| && b.start == a.End() + |mid|
    ensures FileBlockAt(pre + a.Text() + mid + b.Text(), a.start) == Some(a)
    ensures FileBlockAt(pre + a.Text() + mid + b.Text(), b.start) == Some(b)
  {
    var s := pre + a.Text() + mid + b.Text();
    assert s == pre + a.Text() + (mid + b.Text());
    assert s == (pre + a.Text() + mid) + b.Text() + "";
    FileBlockInContext(pre, a, mid + b.Text());
    FileBlockInContext(pre + a.Text() + mid, b, "");
  }

  /** A content group with no `_` cannot hold the closing marker, which has one. */
  lemma EndsFirstWithoutUnderscore(content: string)
    requires forall i :: 0 <= i < |content| ==> content[i] != '_'
    ensures EndsFirst(content)
  {
    forall p | 0 <= p < |content|
      ensures !OccursAt(content + FileEnd, FileEnd, p)
    {
      var t := content + FileEnd;
      assert '_' !in FileEnd[..7];
      if p + 7 < |content| {
        assert t[p + 7] == content[p + 7];
      } else {
        assert t[p + 7] == FileEnd[..7][p + 7 - |content|];
      }
      assert t[p + 7] != FileEnd[7];
    }
  }

  /** `fileRegex.exec(s)` with `lastIndex == from`. */
  function NextFileBlock(s: string, from: nat): (r: Option<FileBlock>)
    ensures r.Some? ==> from <= r.value.start && r.value.End() <= |s|
    decreases |s| - from
  {
    if from >= |s| then None
    else if FileBlockAt(s, from).Some? then FileBlockAt(s, from)
    else NextFileBlock(s, from + 1)
  }

  /** `exec` returns the match at the earliest index from `from` where the pattern matches. */
  lemma {:induction false} NextFileBlockFirst(s: string, from: nat)
    ensures var r := NextFileBlock(s, from);
      (r.Some? ==> FileBlockAt(s, r.value.start) == r)
      && forall k :: from <= k && (r.None? || k < r.value.start) ==> FileBlockAt(s, k).None?
    decreases |s| - from
  {
    if from >= |s| {
      forall k | from <= k
        ensures FileBlockAt(s, k).None?
      {
        assert k + |FileStart| > |s|;
      }
    } else if FileBlockAt(s, from).Some? {
      assert NextFileBlock(s, from) == FileBlockAt(s, from);
    } else {
      NextFileBlockFirst(s, from + 1);
      assert NextFileBlock(s, from) == NextFileBlock(s, from + 1);
    }
  }

  /** Every match the `while` loop of the file pass visits, from `lastIndex == from` on, in order and without overlap. */
  function FileBlocksFrom(s: string, from: nat): (r: seq<FileBlock>)
    ensures forall i :: 0 <= i < |r| ==> from <= r[i].start && r[i].End() <= |s|
    ensures forall i :: 0 <= i < |r| - 1 ==> r[i].End() <= r[i + 1].start
    decreases |s| - from
  {
    match NextFileBlock(s, from)
    case None => []
    case Some(b) => [b] + FileBlocksFrom(s, b.End())
  }

  function FileBlocks(s: string): seq<FileBlock> {
    FileBlocksFrom(s, 0)
  }

  /** Text without the file marker holds no file block. */
  lemma NoFileMarkerNoBlocks(s: string, from: nat)
    requires !Contains(s, FileMarker)
    ensures FileBlocksFrom(s, from) == []
  {
    var r := NextFileBlock(s, from);
    if r.Some? {
      var k := r.value.start;
      NextFileBlockFirst(s, from);
      FileBlockAtSound(s, k);
      MarkersAreHeads();
      OccursConcat(s, FileMarker, " ", k);
      ContainsAt(s, FileMarker, k);
    }
  }

  /** The fragment that replaces a block whose write succeeded; it shows the first 100 UTF-16 code units of the content. */
  function FileSuccess(path: string, content: string): string {
    "\n\U{2705} **SUCCESS**: File created at `" + path + "`\n```\n" + Take(content, 100) + "...\n```"
  }

  /** The fragment that replaces a block whose write failed. */
  function FileFailure(path: string, reason: string): string {
    "\n\U{274C} **ERROR**: Failed to write file `" + path + "`. Reason: " + reason
  }

  /**
    * Whether a write fails, and with which message, given the files present
    * and the target path. It stands for `fs.mkdir` and `fs.writeFile`.
    */
  type WriteOracle = (map<string, string>, string) -> Option<string>

  /** The working text and the files written so far. */
  datatype FileRun = FileRun(text: string, files: map<string, string>)

  /** One iteration of the file pass: write the trimmed content to the trimmed path, then replace the match. */
  function WriteBlock(st: FileRun, b: FileBlock, refuse: WriteOracle): FileRun {
    var path := Trim(b.path);
    FileRun(ReplaceFirst(st.text, b.Text(), WriteOutcome(st.files, b, refuse)),
      if refuse(st.files, path).None? then st.files[path := Trim(b.content)] else st.files)
  }

  /** The fragment that replaces block `b`, given the files present when it is handled. */
  function WriteOutcome(files: map<string, string>, b: FileBlock, refuse: WriteOracle): string {
    var path := Trim(b.path);
    match refuse(files, path)
    case None => FileSuccess(path, Trim(b.content))
    case Some(reason) => FileFailure(path, reason)
  }

  function WriteBlocks(st: FileRun, bs: seq<FileBlock>, refuse: WriteOracle): FileRun
    decreases |bs|
  {
    if |bs| == 0 then st else WriteBlocks(WriteBlock(st, bs[0], refuse), bs[1..], refuse)
  }

  /** The whole file pass over the generated text `s`. */
  function FilePass(s: string, files: map<string, string>, refuse: WriteOracle): FileRun {
    WriteBlocks(FileRun(s, files), FileBlocks(s), refuse)
  }

  /** Text without the marker comes back unchanged, and nothing is written. */
  lemma FilePassNoMarker(s: string, files: map<string, string>, refuse: WriteOracle)
    requires !Contains(s, FileMarker)
    ensures FilePass(s, files, refuse) == FileRun(s, files)
  {
    NoFileMarkerNoBlocks(s, 0);
  }

  /** The paths the blocks name, trimmed as the pass trims them. */
  function TargetPaths(bs: seq<FileBlock>): (r: set<string>)
    ensures forall i :: 0 <= i < |bs| ==> Trim(bs[i].path) in r
  {
    set i | 0 <= i < |bs| :: Trim(bs[i].path)
  }

  /** A file no block names is neither created, changed nor removed. */
  lemma {:induction false} WriteBlocksFrame(st: FileRun, bs: seq<FileBlock>, refuse: WriteOracle, p: string)
    requires p !in TargetPaths(bs)
    ensures var r := WriteBlocks(st, bs, refuse);
      (p in r.files <==> p in st.files) && (p in st.files ==> r.files[p] == st.files[p])
    decreases |bs|
  {
    if |bs| > 0 {
      assert forall i :: 0 <= i < |bs[1..]| ==> bs[1..][i] == bs[i + 1];
      assert TargetPaths(bs[1..]) <= TargetPaths(bs);
      WriteBlocksFrame(WriteBlock(st, bs[0], refuse), bs[1..], refuse, p);
    }
  }

  /** The file state just before block `i` is handled. */
  function FilesBefore(st: FileRun, bs: seq<FileBlock>, refuse: WriteOracle, i: nat): map<string, string>
    requires i <= |bs|
  {
    WriteBlocks(st, bs[..i], refuse).files
  }

  lemma WriteBlocksSplit(st: FileRun, bs: seq<FileBlock>, refuse: WriteOracle, i: nat)
    requires i <= |bs|
    ensures WriteBlocks(st, bs, refuse) == WriteBlocks(WriteBlocks(st, bs[..i], refuse), bs[i..], refuse)
    decreases i
  {
    if i > 0 {
      assert bs[..i][1..] == bs[1..][..i - 1];
      assert bs[i..] == bs[1..][i - 1..];
      WriteBlocksSplit(WriteBlock(st, bs[0], refuse), bs[1..], refuse, i - 1);
    }
  }

  /**
    * Every block gets its own attempt, whatever happened to the ones before it:
    * a block whose write succeeds leaves its trimmed content at its trimmed
    * path, unless a later block names the same path.
    */
  lemma WriteBlocksKeepsWrite(st: FileRun, bs: seq<FileBlock>, refuse: WriteOracle, i: nat)
    requires i < |bs|
    requires refuse(FilesBefore(st, bs, refuse, i), Trim(bs[i].path)).None?
    requires forall j :: i < j < |bs| ==> Trim(bs[j].path) != Trim(bs[i].path)
    ensures var r := WriteBlocks(st, bs, refuse);
      Trim(bs[i].path) in r.files && r.files[Trim(bs[i].path)] == Trim(bs[i].content)
  {
    var p := Trim(bs[i].path);
    var mid := WriteBlocks(st, bs[..i], refuse);
    var after := WriteBlock(mid, bs[i], refuse);
    assert WriteBlocks(st, bs, refuse) == WriteBlocks(after, bs[i + 1..], refuse) by {
      WriteBlocksSplit(st, bs, refuse, i);
      assert bs[i..][0] == bs[i] && bs[i..][1..] == bs[i + 1..];
    }
    var rest := bs[i + 1..];
    assert p !in TargetPaths(rest) by {
      forall j | 0 <= j < |rest|
        ensures Trim(rest[j].path) != p
      {
        assert rest[j] == bs[i + 1 + j];
      }
    }
    WriteBlocksFrame(after, bs[i + 1..], refuse, p);
  }

  /** The first block's text occurs nowhere before the block: the pattern would have matched there first. */
  lemma FirstBlockFound(s: string)
    requires |FileBlocks(s)| > 0
    ensures IndexOf(s, FileBlocks(s)[0].Text(), 0) == Some(FileBlocks(s)[0].start)
  {
    var b := FileBlocks(s)[0];
    assert NextFileBlock(s, 0) == Some(b);
    NextFileBlockFirst(s, 0);
    FileBlockAtSound(s, b.start);
    forall p | 0 <= p < b.start
      ensures !OccursAt(s, b.Text(), p)
    {
      FileBlockAtCopy(s, b, p);
    }
    PlacedInText(s, b);
    IndexOfAt(s, b.Text(), 0, b.start);
  }

  /** The first block is replaced by its fragment where it stands. */
  lemma FirstBlockInPlace(s: string, files: map<string, string>, refuse: WriteOracle)
    requires |FileBlocks(s)| > 0
    ensures var b := FileBlocks(s)[0];
      WriteBlock(FileRun(s, files), b, refuse).text == s[..b.start] + WriteOutcome(files, b, refuse) + s[b.End()..]
  {
    FirstBlockFound(s);
  }

  // ------------------------------------------------------------------
  // Command lines
  // ------------------------------------------------------------------

  /** One match of the command pattern; `newline` tells whether it ended on `\n` or at the end of the text. */
  datatype CmdLine = CmdLine(start: nat, command: string, newline: bool) {
    function Text(): string {
      CmdStart + (command + (if newline then "\n" else ""))
    }

    function End(): nat {
      start + |Text()|
    }

    /** The pieces of `Text()` stand in `s` one after the other from `start`. */
    predicate PlacedIn(s: string) {
      OccursAt(s, CmdStart, start) && OccursAt(s, command, start + |CmdStart|)
      && (newline ==> OccursAt(s, "\n", start + |CmdStart| + |command|))
    }
  }

  /** The command pattern tried at index `k` of `s`. */
  function CmdLineAt(s: string, k: nat): (r: Option<CmdLine>)
    ensures r.Some? ==> r.value.start == k && r.value.End() <= |s|
  {
    if !OccursAt(s, CmdStart, k) then None
    else
      var j := LineEnd(s, k + |CmdStart|);
      if j == |s| then Some(CmdLine(k, s[k + |CmdStart|..], false))
      else if s[j] == '\n' then Some(CmdLine(k, s[k + |CmdStart|..j], true))
      else None
  }

  /** Whatever the pattern matches is a single line whose pieces stand where it says, ending on `\n` or at the end of `s`. */
  lemma CmdLineAtSound(s: string, k: nat)
    ensures var r := CmdLineAt(s, k);
      r.Some? ==> NoLineTerminator(r.value.command) && r.value.PlacedIn(s) && (r.value.newline || r.value.End() == |s|)
  {
    if OccursAt(s, CmdStart, k) {
      var j := LineEnd(s, k + |CmdStart|);
      LineFreeSlice(s, k + |CmdStart|, j);
      if j < |s| && s[j] == '\n' {
        assert s[j..j + 1] == [s[j]];
      }
    }
  }

  /** A line's pieces stand in `s` exactly when its whole text does. */
  lemma CmdPlacedInText(s: string, c: CmdLine)
    ensures c.PlacedIn(s) <==> OccursAt(s, c.Text(), c.start)
  {
    OccursConcat3(s, CmdStart, c.command, if c.newline then "\n" else "", c.start);
  }

  /** The converse of `CmdLineAt`'s contract. */
  lemma CmdLineAtText(s: string, c: CmdLine)
    requires NoLineTerminator(c.command) && OccursAt(s, c.Text(), c.start)
    requires c.newline || c.End() == |s|
    ensures CmdLineAt(s, c.start) == Some(c)
  {
    CmdPlacedInText(s, c);
    CmdLineAtPlaced(s, c);
  }

  lemma CmdLineAtPlaced(s: string, c: CmdLine)
    requires NoLineTerminator(c.command) && c.PlacedIn(s)
    requires c.newline || c.start + |CmdStart| + |c.command| == |s|
    ensures CmdLineAt(s, c.start) == Some(c)
  {
    var i := c.start + |CmdStart|;
    var j := i + |c.command|;
    if c.newline {
      PathSearch(s, c.command, i);
      assert CmdLineAt(s, c.start) == Some(CmdLine(c.start, s[i..j], true));
    } else {
      LineFreeSlice(s, i, j);
      LineEndAt(s, i, j);
      assert s[i..] == c.command;
    }
  }

  /** Every copy of a command line that ends on a newline is a match of the pattern. */
  lemma CmdLineAtCopy(s: string, c: CmdLine, p: nat)
    requires NoLineTerminator(c.command) && c.newline
    ensures OccursAt(s, c.Text(), p) ==> CmdLineAt(s, p) == Some(c.(start := p))
  {
    if OccursAt(s, c.Text(), p) {
      CmdLineAtText(s, c.(start := p));
    }
  }

  /** A command line ending on a newline, placed between any two texts, is a match where it starts. */
  lemma CmdLineInContext(pre: string, c: CmdLine, post: string)
    requires NoLineTerminator(c.command) && c.newline && c.start == |pre|
    ensures CmdLineAt(pre + c.Text() + post, c.start) == Some(c)
  {
    var s := pre + c.Text() + post;
    assert s[c.start..c.End()] == c.Text();
    CmdLineAtText(s, c);
  }

  /** Three command lines laid out in a text, the last two adjacent, are all matches. */
  lemma ThreeLinesAccepted(pre: string, x: CmdLine, mid: string, y: CmdLine, z: CmdLine, post: string)
    requires NoLineTerminator(x.command) && NoLineTerminator(y.command) && NoLineTerminator(z.command)
    requires x.newline && y.newline && z.newline
    requires x.start == |pre| && y.start == x.End() + |mid| && z.start == y.End()
    ensures CmdLineAt(pre + x.Text() + mid + y.Text() + z.Text() + post, x.start) == Some(x)
    ensures CmdLineAt(pre + x.Text() + mid + y.Text() + z.Text() + post, y.start) == Some(y)
    ensures CmdLineAt(pre + x.Text() + mid + y.Text() + z.Text() + post, z.start) == Some(z)
  {
    var s := pre + x.Text() + mid + y.Text() + z.Text() + post;
    assert s == pre + x.Text() + (mid + y.Text() + z.Text() + post);
    assert s == (pre + x.Text() + mid) + y.Text() + (z.Text() + post);
    CmdLineInContext(pre, x, mid + y.Text() + z.Text() + post);
    CmdLineInContext(pre + x.Text() + mid, y, z.Text() + post);
    CmdLineInContext(pre + x.Text() + mid + y.Text(), z, post);
  }

  /** A text made of printable ASCII characters holds no line terminator. */
  lemma PrintableSingleLine(s: string)
    requires forall i :: 0 <= i < |s| ==> ' ' <= s[i] <= '~'
    ensures NoLineTerminator(s)
  {
  }

  /** `cmdRegex.exec(s)` with `lastIndex == from`. */
  function NextCmdLine(s: string, from: nat): (r: Option<CmdLine>)
    ensures r.Some? ==> from <= r.value.start && r.value.End() <= |s|
    decreases |s| - from
  {
    if from >= |s| then None
    else if CmdLineAt(s, from).Some? then CmdLineAt(s, from)
    else NextCmdLine(s, from + 1)
  }

  /** `exec` returns the match at the earliest index from `from` where the pattern matches. */
  lemma {:induction false} NextCmdLineFirst(s: string, from: nat)
    ensures var r := NextCmdLine(s, from);
      (r.Some? ==> CmdLineAt(s, r.value.start) == r)
      && forall k :: from <= k && (r.None? || k < r.value.start) ==> CmdLineAt(s, k).None?
    decreases |s| - from
  {
    if from >= |s| {
      forall k | from <= k
        ensures CmdLineAt(s, k).None?
      {
        assert k + |CmdStart| > |s|;
      }
    } else if CmdLineAt(s, from).Some? {
      assert NextCmdLine(s, from) == CmdLineAt(s, from);
    } else {
      NextCmdLineFirst(s, from + 1);
      assert NextCmdLine(s, from) == NextCmdLine(s, from + 1);
    }
  }

  /** Every match the `while` loop of the command pass visits, from `lastIndex == from` on, in order and without overlap. */
  function CmdLinesFrom(s: string, from: nat): (r: seq<CmdLine>)
    ensures forall i :: 0 <= i < |r| ==> from <= r[i].start && r[i].End() <= |s|
    ensures forall i :: 0 <= i < |r| - 1 ==> r[i].End() <= r[i + 1].start
    decreases |s| - from
  {
    match NextCmdLine(s, from)
    case None => []
    case Some(c) => [c] + CmdLinesFrom(s, c.End())
  }

  function CmdLines(s: string): seq<CmdLine> {
    CmdLinesFrom(s, 0)
  }

  lemma NoCmdMarkerNoLines(s: string, from: nat)
    requires !Contains(s, CmdMarker)
    ensures CmdLinesFrom(s, from) == []
  {
    var r := NextCmdLine(s, from);
    if r.Some? {
      var k := r.value.start;
      NextCmdLineFirst(s, from);
      CmdLineAtSound(s, k);
      MarkersAreHeads();
      OccursConcat(s, CmdMarker, " ", k);
      ContainsAt(s, CmdMarker, k);
    }
  }

  /** What `exec` of a shell command yields: its two output streams, or the error it was rejected with. */
  datatype ExecResult = Exited(stdout: string, stderr: string) | Failed(message: string)

  /** The shell, as a function of the commands run so far and the next command. */
  type ExecOracle = (seq<string>, string) -> ExecResult

  const SecurityRestriction: string := "Security Restriction: Only 'git' commands are allowed in this version."

  /** The only commands the pass lets through. */
  predicate Allowed(command: string) {
    StartsWith(command, "git ")
  }

  /**
    * The output shown for a command: the longest prefix of stdout, else of
    * stderr, that fits in 200 UTF-16 code units; a placeholder when both are
    * empty.
    */
  function CmdOutput(stdout: string, stderr: string): (r: string)
    ensures var output := if stdout != "" then stdout else stderr;
      output != "" ==>
        |r| <= |output| && r == output[..|r|] && Utf16Length(r) <= 200
        && (Utf16Length(output) <= 200 ==> r == output)
        && (|r| < |output| ==> Utf16Length(r) + Units(output[|r|]) > 200)
    ensures stdout == "" && stderr == "" ==> r == "Done (No Output)"
  {
    var output := if stdout != "" then stdout else stderr;
    if output != "" then TakeMaximal(output, 200); Take(output, 200) else "Done (No Output)"
  }

  function CmdExecuted(command: string, output: string): string {
    "\n\U{1F4BB} **Executed**: `" + command + "`\n```\n" + output + "\n```"
  }

  function CmdError(command: string, message: string): string {
    "\n\U{274C} **Command Error**: `" + command + "`\n> " + message
  }

  /** The working text and the commands run so far. */
  datatype ShellRun = ShellRun(text: string, executed: seq<string>)

  /** One iteration of the command pass. */
  function RunLine(st: ShellRun, c: CmdLine, run: ExecOracle): ShellRun {
    ShellRun(ReplaceFirst(st.text, c.Text(), LineOutcome(st.executed, c, run)), AfterLine(st.executed, c))
  }

  /** The commands run once line `c` is handled: its trimmed command joins them when it is allowed. */
  function AfterLine(executed: seq<string>, c: CmdLine): seq<string> {
    var command := Trim(c.command);
    if Allowed(command) then executed + [command] else executed
  }

  /** The fragment that replaces line `c`, given the commands run before it. */
  function LineOutcome(executed: seq<string>, c: CmdLine, run: ExecOracle): string {
    var command := Trim(c.command);
    if !Allowed(command) then CmdError(command, SecurityRestriction)
    else match run(executed, command)
      case Exited(stdout, stderr) => CmdExecuted(command, CmdOutput(stdout, stderr))
      case Failed(message) => CmdError(command, message)
  }

  function RunLines(st: ShellRun, cs: seq<CmdLine>, run: ExecOracle): ShellRun
    decreases |cs|
  {
    if |cs| == 0 then st else RunLines(RunLine(st, cs[0], run), cs[1..], run)
  }

  /** The whole command pass over the generated text `s`. */
  function CommandPass(s: string, executed: seq<string>, run: ExecOracle): ShellRun {
    RunLines(ShellRun(s, executed), CmdLines(s), run)
  }

  /** The trimmed commands of the lines that pass the prefix check, in order. */
  function AllowedCommands(cs: seq<CmdLine>): (r: seq<string>)
    ensures forall i :: 0 <= i < |r| ==> Allowed(r[i])
    decreases |cs|
  {
    if |cs| == 0 then []
    else (if Allowed(Trim(cs[0].command)) then [Trim(cs[0].command)] else []) + AllowedCommands(cs[1..])
  }

  lemma AllowedCommandsCons(c: CmdLine, rest: seq<CmdLine>)
    ensures AllowedCommands([c] + rest) == (if Allowed(Trim(c.command)) then [Trim(c.command)] else []) + AllowedCommands(rest)
  {
    assert ([c] + rest)[1..] == rest;
  }

  /** Exactly the allowed commands are run, each once, in the order of their lines. */
  lemma {:induction false} RunLinesExecutes(st: ShellRun, cs: seq<CmdLine>, run: ExecOracle)
    ensures RunLines(st, cs, run).executed == st.executed + AllowedCommands(cs)
    decreases |cs|
  {
    if |cs| > 0 {
      var next := RunLine(st, cs[0], run);
      var head := if Allowed(Trim(cs[0].command)) then [Trim(cs[0].command)] else [];
      assert next.executed == st.executed + head;
      RunLinesExecutes(next, cs[1..], run);
      assert AllowedCommands(cs) == head + AllowedCommands(cs[1..]);
      ConcatAssoc(st.executed, head, AllowedCommands(cs[1..]));
    }
  }

  /** Only commands starting with `git ` ever reach the shell. */
  lemma CommandPassOnlyGit(s: string, executed: seq<string>, run: ExecOracle)
    ensures var r := CommandPass(s, executed, run);
      |executed| <= |r.executed| && r.executed[..|executed|] == executed
      && forall i :: |executed| <= i < |r.executed| ==> StartsWith(r.executed[i], "git ")
  {
    RunLinesExecutes(ShellRun(s, executed), CmdLines(s), run);
    var extra := AllowedCommands(CmdLines(s));
    var r := CommandPass(s, executed, run);
    forall i | |executed| <= i < |r.executed|
      ensures StartsWith(r.executed[i], "git ")
    {
      assert r.executed[i] == extra[i - |executed|];
    }
  }

  lemma CommandPassNoMarker(s: string, executed: seq<string>, run: ExecOracle)
    requires !Contains(s, CmdMarker)
    ensures CommandPass(s, executed, run) == ShellRun(s, executed)
  {
    NoCmdMarkerNoLines(s, 0);
  }

  /**
    * A line that ends on a newline occurs nowhere before itself when it is the
    * first match: every copy of it would be a match too.
    */
  lemma FirstLineFound(s: string)
    requires |CmdLines(s)| > 0 && CmdLines(s)[0].newline
    ensures IndexOf(s, CmdLines(s)[0].Text(), 0) == Some(CmdLines(s)[0].start)
  {
    var c := CmdLines(s)[0];
    assert NextCmdLine(s, 0) == Some(c);
    NextCmdLineFirst(s, 0);
    CmdLineAtSound(s, c.start);
    forall p | 0 <= p < c.start
      ensures !OccursAt(s, c.Text(), p)
    {
      CmdLineAtCopy(s, c, p);
    }
    CmdPlacedInText(s, c);
    IndexOfAt(s, c.Text(), 0, c.start);
  }

  /** The first command line, when it ends on a newline, is replaced by its fragment where it stands. */
  lemma FirstLineInPlace(s: string, executed: seq<string>, run: ExecOracle)
    requires |CmdLines(s)| > 0 && CmdLines(s)[0].newline
    ensures var c := CmdLines(s)[0];
      RunLine(ShellRun(s, executed), c, run).text == s[..c.start] + LineOutcome(executed, c, run) + s[c.End()..]
  {
    FirstLineFound(s);
  }

  // ------------------------------------------------------------------
  // Where `replace` puts a command's fragment
  // ------------------------------------------------------------------

  /** The lines lie in `s` from `from` on, in order and without overlap. */
  predicate InOrder(s: string, from: nat, cs: seq<CmdLine>) {
    (|cs| > 0 ==> from <= cs[0].start)
    && (forall i :: 0 <= i < |cs| ==> cs[i].End() <= |s|)
    && (forall i :: 0 <= i < |cs| - 1 ==> cs[i].End() <= cs[i + 1].start)
  }

  /** The text before each line of `cs` from `from` on, and the text after the last. */
  function Between(s: string, from: nat, cs: seq<CmdLine>): (r: seq<string>)
    requires from <= |s| && InOrder(s, from, cs)
    ensures |r| == |cs| + 1
    decreases |cs|
  {
    if |cs| == 0 then [s[from..]]
    else
      assert InOrder(s, cs[0].End(), cs[1..]) by {
        assert forall i :: 0 <= i < |cs| - 1 ==> cs[1..][i] == cs[i + 1];
      }
      [s[from..cs[0].start]] + Between(s, cs[0].End(), cs[1..])
  }

  /** The fragment of every line of `cs`, each given the commands the lines before it ran. */
  function Fragments(executed: seq<string>, cs: seq<CmdLine>, run: ExecOracle): (r: seq<string>)
    ensures |r| == |cs|
    decreases |cs|
  {
    if |cs| == 0 then []
    else [LineOutcome(executed, cs[0], run)] + Fragments(AfterLine(executed, cs[0]), cs[1..], run)
  }

  /**
    * The command pass with each fragment put where its line stands: the
    * response is rebuilt from the text before each match, the match's
    * fragment, and the text after the last match.
    */
  function SpliceFrom(s: string, from: nat, executed: seq<string>, run: ExecOracle): ShellRun
    requires from <= |s|
    decreases |s| - from
  {
    match NextCmdLine(s, from)
    case None => ShellRun(s[from..], executed)
    case Some(c) =>
      var rest := SpliceFrom(s, c.End(), AfterLine(executed, c), run);
      ShellRun(s[from..c.start] + LineOutcome(executed, c, run) + rest.text, rest.executed)
  }

  /** The command pass as `replace` is evidently meant to work. */
  function CommandPassInPlace(s: string, executed: seq<string>, run: ExecOracle): ShellRun {
    SpliceFrom(s, 0, executed, run)
  }

  /**
    * Every line the `/g` loop visits is replaced, in order, by exactly one
    * fragment, and the text between the lines is kept.
    */
  lemma {:induction false} SpliceInterleaves(s: string, from: nat, executed: seq<string>, run: ExecOracle)
    requires from <= |s|
    ensures var cs := CmdLinesFrom(s, from);
      InOrder(s, from, cs)
      && SpliceFrom(s, from, executed, run).text == Weave(Between(s, from, cs), Fragments(executed, cs, run))
    decreases |s| - from
  {
    match NextCmdLine(s, from)
    case None =>
    case Some(c) =>
      var after := AfterLine(executed, c);
      var rest := CmdLinesFrom(s, c.End());
      var fragment := LineOutcome(executed, c, run);
      SpliceInterleaves(s, c.End(), after, run);
      SpliceCons(s, from, c, rest, executed, run);
      WeaveCons(s[from..c.start], fragment, Between(s, c.End(), rest), Fragments(after, rest, run));
  }

  /** A match at the head of the lines adds its gap and its fragment in front of the rest. */
  lemma SpliceCons(s: string, from: nat, c: CmdLine, rest: seq<CmdLine>, executed: seq<string>, run: ExecOracle)
    requires from <= c.start && c.End() <= |s| && InOrder(s, c.End(), rest)
    ensures InOrder(s, from, [c] + rest)
    ensures Between(s, from, [c] + rest) == [s[from..c.start]] + Between(s, c.End(), rest)
    ensures Fragments(executed, [c] + rest, run) == [LineOutcome(executed, c, run)] + Fragments(AfterLine(executed, c), rest, run)
  {
    assert ([c] + rest)[1..] == rest;
  }

  /** The in-place pass runs the same commands as the pass as written. */
  lemma {:induction false} SpliceExecutes(s: string, from: nat, executed: seq<string>, run: ExecOracle)
    requires from <= |s|
    ensures SpliceFrom(s, from, executed, run).executed == executed + AllowedCommands(CmdLinesFrom(s, from))
    decreases |s| - from
  {
    match NextCmdLine(s, from)
    case None =>
    case Some(c) =>
      var rest := CmdLinesFrom(s, c.End());
      var head := if Allowed(Trim(c.command)) then [Trim(c.command)] else [];
      var after := AfterLine(executed, c);
      SpliceExecutes(s, c.End(), after, run);
      assert SpliceFrom(s, from, executed, run).executed == SpliceFrom(s, c.End(), after, run).executed;
      assert CmdLinesFrom(s, from) == [c] + rest;
      AllowedCommandsCons(c, rest);
      assert after == executed + head;
      ConcatAssoc(executed, head, AllowedCommands(rest));
  }

  /** A command line ending in `\r\n`, followed by the same line ending the response. */
  function CrlfTwice(command: string): string {
    CmdStart + command + ("\r\n" + (CmdStart + command))
  }

  /** What the command of a CRLF-twice response must avoid: line terminators and `>`. */
  predicate PlainCommand(command: string) {
    NoLineTerminator(command) && forall k :: 0 <= k < |command| ==> command[k] != '>'
  }

  /**
    * As written, a line ending in `\r\n` is not a match (`.` stops at `\r`
    * and the pattern wants `\n` or the end of the text), yet the pass
    * replaces it: the later line that did match has the same text, and
    * `replace` puts that line's fragment at the first copy. The line that
    * ran stays in the response as it was; the in-place pass puts the
    * fragment where the line stands.
    */
  lemma CrlfLineOverwritten(command: string, executed: seq<string>, run: ExecOracle)
    requires PlainCommand(command)
    ensures var s := CrlfTwice(command); var c := CmdLine(|command| + 16, command, false);
      CmdLineAt(s, 0).None? && CmdLines(s) == [c]
      && CommandPass(s, executed, run).text == LineOutcome(executed, c, run) + "\r\n" + (CmdStart + command)
      && CommandPassInPlace(s, executed, run).text == CmdStart + command + "\r\n" + LineOutcome(executed, c, run)
  {
    CrlfLines(command);
    CrlfAsWritten(command, executed, run);
    CrlfInPlace(command, executed, run);
  }

  /** The `/g` loop visits only the second line. */
  lemma CrlfLines(command: string)
    requires PlainCommand(command)
    ensures var c := CmdLine(|command| + 16, command, false);
      NextCmdLine(CrlfTwice(command), 0) == Some(c) && CmdLines(CrlfTwice(command)) == [c]
  {
    var s := CrlfTwice(command);
    var k := |command| + 16;
    var c := CmdLine(k, command, false);
    CrlfFirstNoMatch(command);
    CrlfNoStartBetween(command);
    CrlfSecondMatch(command);
    NextCmdLineAt(s, 1, k);
    assert NextCmdLine(s, 0) == Some(c);
    assert CmdLinesFrom(s, |s|) == [];
  }

  /** `replace` puts the second line's fragment over the first line. */
  lemma CrlfAsWritten(command: string, executed: seq<string>, run: ExecOracle)
    requires PlainCommand(command)
    ensures var c := CmdLine(|command| + 16, command, false);
      CommandPass(CrlfTwice(command), executed, run).text == LineOutcome(executed, c, run) + "\r\n" + (CmdStart + command)
  {
    var line := CmdStart + command;
    var s := CrlfTwice(command);
    var c := CmdLine(|command| + 16, command, false);
    CrlfLines(command);
    RunOneLine(ShellRun(s, executed), c, run);
    assert c.Text() == line;
    assert s == line + ("\r\n" + line);
    ReplaceAtStart(line, "\r\n" + line, LineOutcome(executed, c, run));
  }

  /** The in-place pass puts the fragment where the second line stands. */
  lemma CrlfInPlace(command: string, executed: seq<string>, run: ExecOracle)
    requires PlainCommand(command)
    ensures var c := CmdLine(|command| + 16, command, false);
      CommandPassInPlace(CrlfTwice(command), executed, run).text == CmdStart + command + "\r\n" + LineOutcome(executed, c, run)
  {
    var line := CmdStart + command;
    var s := CrlfTwice(command);
    var c := CmdLine(|command| + 16, command, false);
    CrlfLines(command);
    SpliceLast(s, 0, c, executed, run);
    assert s == (line + "\r\n") + line;
    assert s[..c.start] == line + "\r\n";
  }

  /** `replace` of a text the response starts with. */
  lemma ReplaceAtStart(t: string, rest: string, replacement: string)
    ensures ReplaceFirst(t + rest, t, replacement) == replacement + rest
  {
    assert OccursAt(t + rest, t, 0);
    assert (t + rest)[|t|..] == rest;
  }

  /** The in-place pass on a last match that runs to the end of the text. */
  lemma SpliceLast(s: string, from: nat, c: CmdLine, executed: seq<string>, run: ExecOracle)
    requires from <= |s| && NextCmdLine(s, from) == Some(c) && c.End() == |s|
    ensures SpliceFrom(s, from, executed, run).text == s[from..c.start] + LineOutcome(executed, c, run)
  {
    assert SpliceFrom(s, |s|, AfterLine(executed, c), run).text == "";
  }

  /** The first line ends in `\r`, so the pattern fails where it starts. */
  lemma CrlfFirstNoMatch(command: string)
    requires PlainCommand(command)
    ensures CmdLineAt(CrlfTwice(command), 0).None?
  {
    var s := CrlfTwice(command);
    var j := 14 + |command|;
    assert s[..14] == CmdStart;
    assert s[14..j] == command;
    assert s[j] == '\r';
    LineFreeSlice(s, 14, j);
    LineEndAt(s, 14, j);
  }

  /** Between the two lines no `>>> EXEC_CMD: ` starts. */
  lemma CrlfNoStartBetween(command: string)
    requires PlainCommand(command)
    ensures forall p :: 1 <= p < |command| + 16 ==> !OccursAt(CrlfTwice(command), CmdStart, p)
  {
    var s := CrlfTwice(command);
    forall p | 1 <= p < |command| + 16
      ensures !OccursAt(s, CmdStart, p)
    {
      if p < 3 {
        assert s[p + 2] == CmdStart[p + 2];
      } else if p < 14 {
        assert s[p] == CmdStart[p];
      } else if p < 14 + |command| {
        assert s[p] == command[p - 14];
      } else {
        assert s[p] == "\r\n"[p - 14 - |command|];
      }
      NotCmdStartAt(s, p);
    }
  }

  /** The second line runs to the end of the text: it is the match. */
  lemma CrlfSecondMatch(command: string)
    requires PlainCommand(command)
    ensures CmdLineAt(CrlfTwice(command), |command| + 16) == Some(CmdLine(|command| + 16, command, false))
  {
    var s := CrlfTwice(command);
    var k := |command| + 16;
    assert s[k..] == CmdStart + command;
    assert s[k..k + 14] == CmdStart;
    assert s[k + 14..] == command;
    LineFreeSlice(s, k + 14, |s|);
    LineEndAt(s, k + 14, |s|);
  }

  lemma RunOneLine(st: ShellRun, c: CmdLine, run: ExecOracle)
    ensures RunLines(st, [c], run) == RunLine(st, c, run)
  {
    assert [c][1..] == [];
  }

  /** The pattern cannot start where the text does not read `>` and, two further on, `>` again. */
  lemma NotCmdStartAt(s: string, p: nat)
    requires p + 2 < |s| && (s[p] != '>' || s[p + 2] != '>')
    ensures !OccursAt(s, CmdStart, p)
  {
    if p + |CmdStart| <= |s| {
      assert s[p..p + |CmdStart|][0] == s[p] && s[p..p + |CmdStart|][2] == s[p + 2];
    }
  }

  /** `exec` from `from` returns the match at `k` when the pattern cannot start anywhere between. */
  lemma {:induction false} NextCmdLineAt(s: string, from: nat, k: nat)
    requires from <= k && CmdLineAt(s, k).Some?
    requires forall p :: from <= p < k ==> !OccursAt(s, CmdStart, p)
    ensures NextCmdLine(s, from) == CmdLineAt(s, k)
    decreases k - from
  {
    if from < k {
      NextCmdLineAt(s, from + 1, k);
    }
  }
}
