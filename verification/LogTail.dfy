/** The bounded log reader of collect_logs: a tail of the file, or a
    continuation from an offset, cut into lines. */
module LogTail {
  import opened Common

  const DEFAULT_MAX_BYTES: int := 64 * 1024
  const HARD_MAX_BYTES: int := 1024 * 1024
  const DEFAULT_MAX_LINES: int := 500
  const HARD_MAX_LINES: int := 5000

  type Bytes = seq<byte>

  /** A limit outside its range is replaced by the default, not by the cap. */
  function Limit(requested: int, hard: int, default: int): (n: int)
    requires 0 < default <= hard
    ensures 0 < n <= hard && (0 < requested <= hard ==> n == requested)
  {
    if requested <= 0 || requested > hard then default else requested
  }

  function Clamp(x: int, hi: nat): (n: nat)
    ensures n <= hi
  {
    if x < 0 then 0 else if x > hi then hi else x
  }

  function TrimNewlines(s: Bytes): Bytes {
    if s != [] && s[|s| - 1] == NEWLINE then TrimNewlines(s[..|s| - 1]) else s
  }

  /** strings.Split at newlines: always at least one piece. */
  function Split(s: Bytes): (ls: seq<Bytes>)
    ensures |ls| >= 1
  {
    if s == [] then [[]] else Before(s[0], Split(s[1..]))
  }

  /** The pieces once byte x is put in front. */
  function Before(x: byte, ls: seq<Bytes>): (r: seq<Bytes>)
    requires |ls| >= 1
    ensures |r| >= 1
  {
    if x == NEWLINE then [[]] + ls else [[x] + ls[0]] + ls[1..]
  }

  lemma BeforeAppend(x: byte, xs: seq<Bytes>, ys: seq<Bytes>)
    requires |xs| >= 1
    ensures Before(x, xs + ys) == Before(x, xs) + ys
  {
    assert (xs + ys)[1..] == xs[1..] + ys;
  }

  function DropCRs(ls: seq<Bytes>): seq<Bytes> {
    seq(|ls|, i requires 0 <= i < |ls| => DropCR(ls[i]))
  }

  /** The line list of a whole text. */
  function LinesOf(text: Bytes): seq<Bytes> {
    if text == [] then [] else DropCRs(Split(TrimNewlines(text)))
  }

  datatype Reply = Reply(lines: seq<Bytes>, size: nat, endOffset: nat, truncated: bool)

  function Start(size: nat, offset: Option<int>, maxBytes: int): (n: nat)
    ensures n <= size
  {
    Clamp(if offset.None? then size - maxBytes else offset.value, size)
  }

  function End(size: nat, offset: Option<int>, maxBytes: int): (n: nat)
    requires maxBytes > 0
    ensures Start(size, offset, maxBytes) <= n <= size
    ensures n - Start(size, offset, maxBytes) <= maxBytes
  {
    var start := Start(size, offset, maxBytes);
    if size - start > maxBytes then start + maxBytes else size
  }

  /** A tail that starts inside the file loses its first, partial line. */
  function Visible(window: Bytes, cut: bool): Bytes {
    if !cut then window
    else
      var k := IndexOf(window, NEWLINE);
      if k < |window| then window[k + 1..] else []
  }

  function LastLines(ls: seq<Bytes>, maxLines: int): (r: seq<Bytes>)
    requires maxLines > 0
    ensures |r| <= maxLines && (|ls| <= maxLines ==> r == ls)
  {
    if |ls| > maxLines then ls[|ls| - maxLines..] else ls
  }

  /** The text a request reads and cuts into lines. */
  function Text(file: Bytes, offset: Option<int>, maxBytes: int): Bytes
    requires maxBytes > 0
  {
    var start := Start(|file|, offset, maxBytes);
    Visible(file[start..End(|file|, offset, maxBytes)], offset.None? && start > 0)
  }

  /** The append loop over the split text. */
  method CutLines(text: Bytes) returns (lines: seq<Bytes>)
    ensures lines == LinesOf(text)
  {
    lines := [];
    if text != [] {
      var pieces := Split(TrimNewlines(text));
      for i := 0 to |pieces|
        invariant lines == DropCRs(pieces[..i])
      {
        lines := lines + [DropCR(pieces[i])];
      }
      assert pieces[..|pieces|] == pieces;
    }
  }

  /** The clamps, the read and the dropped first fragment. */
  method ReadWindow(file: Bytes, offset: Option<int>, maxBytes: int) returns (text: Bytes, end: nat)
    requires maxBytes > 0
    ensures text == Text(file, offset, maxBytes) && |text| <= maxBytes
    ensures end == End(|file|, offset, maxBytes)
  {
    var size := |file|;
    var start := if offset.None? then size - maxBytes else offset.value;
    if start < 0 {
      start := 0;
    }
    if start > size {
      start := size;
    }
    var readLen := size - start;
    if readLen > maxBytes {
      readLen := maxBytes;
    }
    end := start + readLen;
    assert start == Start(|file|, offset, maxBytes) && end == End(|file|, offset, maxBytes);
    text := DropFragment(file[start..end], offset.None? && start > 0);
  }

  /** In a tail that starts inside the file, the first line may be a fragment. */
  method DropFragment(window: Bytes, cut: bool) returns (text: Bytes)
    ensures text == Visible(window, cut) && |text| <= |window|
  {
    text := window;
    if cut {
      var idx := IndexOf(text, NEWLINE);
      text := if idx < |text| then text[idx + 1..] else [];
    }
  }

  method CollectLogs(file: Bytes, offset: Option<int>, maxBytesAsked: int, maxLinesAsked: int)
    returns (r: Reply)
    ensures var maxBytes := Limit(maxBytesAsked, HARD_MAX_BYTES, DEFAULT_MAX_BYTES);
            var maxLines := Limit(maxLinesAsked, HARD_MAX_LINES, DEFAULT_MAX_LINES);
            var text := Text(file, offset, maxBytes);
            && r.size == |file| && r.endOffset == End(|file|, offset, maxBytes)
            && r.lines == LastLines(LinesOf(text), maxLines)
            && (r.truncated <==> r.lines != LinesOf(text))
            && |r.lines| <= maxLines && |text| <= maxBytes
  {
    var maxBytes := maxBytesAsked;
    if maxBytes <= 0 || maxBytes > HARD_MAX_BYTES {
      maxBytes := DEFAULT_MAX_BYTES;
    }
    var maxLines := maxLinesAsked;
    if maxLines <= 0 || maxLines > HARD_MAX_LINES {
      maxLines := DEFAULT_MAX_LINES;
    }
    assert maxBytes == Limit(maxBytesAsked, HARD_MAX_BYTES, DEFAULT_MAX_BYTES);
    assert maxLines == Limit(maxLinesAsked, HARD_MAX_LINES, DEFAULT_MAX_LINES);
    var text, end := ReadWindow(file, offset, maxBytes);
    var lines := CutLines(text);
    var truncated := false;
    if |lines| > maxLines {
      lines := lines[|lines| - maxLines..];
      truncated := true;
    }
    r := Reply(lines, |file|, end, truncated);
  }

  // ---- A tail shows whole lines of the file ----------------------------

  predicate HasText(s: Bytes) {
    exists i | 0 <= i < |s| :: s[i] != NEWLINE
  }

  predicate IsSuffix(xs: seq<Bytes>, ys: seq<Bytes>) {
    |xs| <= |ys| && xs == ys[|ys| - |xs|..]
  }

  lemma {:induction false} TrimAppend(a: Bytes, b: Bytes)
    requires HasText(b)
    ensures TrimNewlines(a + b) == a + TrimNewlines(b)
    ensures TrimNewlines(b) != []
    decreases |b|
  {
    assert (a + b)[|a + b| - 1] == b[|b| - 1];
    if b[|b| - 1] == NEWLINE {
      var b' := b[..|b| - 1];
      assert HasText(b') by {
        var i :| 0 <= i < |b| && b[i] != NEWLINE;
        assert b'[i] != NEWLINE;
      }
      assert (a + b)[..|a + b| - 1] == a + b';
      TrimAppend(a, b');
    }
  }

  /** The pieces hold no newline, and joined by newlines they are the text. */
  lemma {:induction false} SplitJoins(s: Bytes)
    ensures Joined(Split(s)) == s
    ensures forall l | l in Split(s) :: NEWLINE !in l
  {
    if s == [] {
    } else {
      SplitJoins(s[1..]);
      BeforeJoins(s[0], Split(s[1..]));
      BeforeHasNoNewline(s[0], Split(s[1..]));
      assert s == [s[0]] + s[1..];
    }
  }

  lemma {:induction false} JoinedHead(a: Bytes, rest: seq<Bytes>)
    requires rest != []
    ensures Joined([a] + rest) == a + [NEWLINE] + Joined(rest)
  {
    assert ([a] + rest)[1..] == rest;
  }

  lemma {:induction false} BeforeJoins(x: byte, ls: seq<Bytes>)
    requires |ls| >= 1
    ensures Joined(Before(x, ls)) == [x] + Joined(ls)
  {
    if x == NEWLINE {
      JoinedHead([], ls);
      assert Before(x, ls) == [[]] + ls;
    } else if |ls| == 1 {
      assert Before(x, ls) == [[x] + ls[0]];
    } else {
      assert ls == [ls[0]] + ls[1..];
      LongerHead(x, ls[0], ls[1..]);
    }
  }

  lemma {:induction false} LongerHead(x: byte, l: Bytes, rest: seq<Bytes>)
    requires rest != []
    ensures Joined([[x] + l] + rest) == [x] + Joined([l] + rest)
  {
    JoinedHead(l, rest);
    JoinedHead([x] + l, rest);
    Regroup(x, l, Joined(rest));
  }

  lemma Regroup(x: byte, l: Bytes, rest: Bytes)
    ensures ([x] + l) + [NEWLINE] + rest == [x] + (l + [NEWLINE] + rest)
  {
  }

  lemma BeforeHasNoNewline(x: byte, ls: seq<Bytes>)
    requires |ls| >= 1 && forall l | l in ls :: NEWLINE !in l
    ensures forall l | l in Before(x, ls) :: NEWLINE !in l
  {
    assert ls[0] in ls;
  }

  function Joined(ls: seq<Bytes>): Bytes
    requires |ls| >= 1
  {
    if |ls| == 1 then ls[0] else ls[0] + [NEWLINE] + Joined(ls[1..])
  }

  lemma {:induction false} SplitAppend(a: Bytes, b: Bytes)
    ensures Split(a + [NEWLINE] + b) == Split(a) + Split(b)
  {
    var s := a + [NEWLINE] + b;
    if a == [] {
      assert s[1..] == b;
    } else {
      assert s[1..] == a[1..] + [NEWLINE] + b;
      SplitAppend(a[1..], b);
      BeforeAppend(a[0], Split(a[1..]), Split(b));
      assert Split(s) == Before(a[0], Split(s[1..]));
    }
  }

  /** The lines of what follows a newline end the line list of the whole. */
  lemma LinesAfterNewline(a: Bytes, b: Bytes)
    requires (a == [] || a[|a| - 1] == NEWLINE) && HasText(b)
    ensures IsSuffix(LinesOf(b), LinesOf(a + b))
  {
    TrimAppend(a, b);
    if a == [] {
      assert a + b == b;
    } else {
      var t := TrimNewlines(b);
      assert a + t == a[..|a| - 1] + [NEWLINE] + t;
      SplitAppend(a[..|a| - 1], t);
      DropCRsSuffix(Split(a[..|a| - 1]), Split(t));
    }
  }

  lemma DropCRsSuffix(xs: seq<Bytes>, ys: seq<Bytes>)
    ensures IsSuffix(DropCRs(ys), DropCRs(xs + ys))
  {
    var all, tail := DropCRs(xs + ys), DropCRs(ys);
    assert forall i | 0 <= i < |ys| :: all[|xs| + i] == tail[i];
  }

  lemma {:induction false} OnlyNewlines(s: Bytes)
    requires !HasText(s)
    ensures TrimNewlines(s) == []
  {
    if s == [] {
    } else {
      assert s[|s| - 1] == NEWLINE;
      assert forall i | 0 <= i < |s| - 1 :: s[..|s| - 1][i] == s[i];
      OnlyNewlines(s[..|s| - 1]);
    }
  }

  lemma LastOfSuffix(xs: seq<Bytes>, ys: seq<Bytes>, maxLines: int)
    requires maxLines > 0 && IsSuffix(xs, ys)
    ensures IsSuffix(LastLines(xs, maxLines), ys)
  {
    var r := LastLines(xs, maxLines);
    assert r == xs[|xs| - |r|..];
    assert ys[|ys| - |xs|..][|xs| - |r|..] == ys[|ys| - |r|..];
  }

  // ---- Pieces of a concatenation ---------------------------------------

  function Last(ls: seq<Bytes>): Bytes
    requires ls != []
  {
    ls[|ls| - 1]
  }

  /** The last piece of the front and the first of the back become one. */
  function Glued(xs: seq<Bytes>, ys: seq<Bytes>): seq<Bytes>
    requires xs != [] && ys != []
  {
    xs[..|xs| - 1] + [Last(xs) + ys[0]] + ys[1..]
  }

  lemma BeforeGlued(x: byte, xs: seq<Bytes>, ys: seq<Bytes>)
    requires xs != [] && ys != []
    ensures Before(x, Glued(xs, ys)) == Glued(Before(x, xs), ys)
  {
    if x != NEWLINE && |xs| == 1 {
      assert Glued(xs, ys) == [xs[0] + ys[0]] + ys[1..];
      assert [x] + (xs[0] + ys[0]) == ([x] + xs[0]) + ys[0];
    }
  }

  lemma {:induction false} SplitGlued(a: Bytes, b: Bytes)
    ensures Split(a + b) == Glued(Split(a), Split(b))
  {
    if a == [] {
      assert a + b == b && [] + Split(b)[0] == Split(b)[0];
    } else {
      assert (a + b)[1..] == a[1..] + b;
      SplitGlued(a[1..], b);
      BeforeGlued(a[0], Split(a[1..]), Split(b));
    }
  }

  lemma SplitOne(x: byte)
    ensures Split([x]) == if x == NEWLINE then [[], []] else [[x]]
  {
    var s: Bytes := [x];
    var rest: seq<Bytes> := [[]];
    assert s[1..] == [] && Split(s[1..]) == rest && Split(s) == Before(x, rest);
    assert [x] + rest[0] == s && rest[1..] == [];
  }

  /** The last piece, by the last byte. */
  lemma LastPiece(s: Bytes, x: byte)
    ensures Last(Split(s + [x])) == if x == NEWLINE then [] else Last(Split(s)) + [x]
  {
    SplitGlued(s, [x]);
    SplitOne(x);
  }

  lemma {:induction false} EmptyLastPiece(s: Bytes)
    ensures Last(Split(s)) == [] <==> s == [] || s[|s| - 1] == NEWLINE
  {
    if s == [] {
    } else {
      assert s == s[..|s| - 1] + [s[|s| - 1]];
      LastPiece(s[..|s| - 1], s[|s| - 1]);
    }
  }

  lemma {:induction false} FirstPiece(s: Bytes)
    ensures Split(s)[0] == s[..IndexOf(s, NEWLINE)]
    ensures |Split(s)| > 1 <==> NEWLINE in s
  {
    if s == [] {
    } else {
      FirstPiece(s[1..]);
      assert s == [s[0]] + s[1..];
      assert s[0] != NEWLINE ==> s[..IndexOf(s, NEWLINE)] == [s[0]] + s[1..][..IndexOf(s[1..], NEWLINE)];
    }
  }

  lemma {:induction false} Trimmed(s: Bytes)
    ensures var t := TrimNewlines(s);
            && (t == [] || t[|t| - 1] != NEWLINE) && t <= s && (t == [] <==> !HasText(s))
            && (forall i | |t| <= i < |s| :: s[i] == NEWLINE)
  {
    if s != [] && s[|s| - 1] == NEWLINE {
      Trimmed(s[..|s| - 1]);
      assert forall i | 0 <= i < |s| && s[i] != NEWLINE :: s[..|s| - 1][i] != NEWLINE;
    } else if s != [] {
      assert s[|s| - 1] != NEWLINE;
    }
  }

  /** Nothing but newlines, or a last line that is a lone carriage return. */
  predicate EndsBlank(file: Bytes) {
    var t := TrimNewlines(file);
    || t == []
    || (t[|t| - 1] == CARRIAGE_RETURN && (|t| == 1 || t[|t| - 2] == NEWLINE))
  }

  lemma {:induction false} EmptyOrReturn(front: Bytes, x: byte)
    requires x != NEWLINE
    ensures DropCR(Last(Split(front + [x]))) == [] <==>
            x == CARRIAGE_RETURN && (front == [] || front[|front| - 1] == NEWLINE)
  {
    LastPiece(front, x);
    EmptyLastPiece(front);
    var l := Last(Split(front));
    assert (l + [x])[..|l|] == l;
  }

  lemma {:induction false} LastLineIsEmpty(file: Bytes)
    requires file != []
    ensures LinesOf(file) != [] && (Last(LinesOf(file)) == [] <==> EndsBlank(file))
  {
    var t := TrimNewlines(file);
    Trimmed(file);
    assert Last(LinesOf(file)) == DropCR(Last(Split(t)));
    if t == [] {
    } else {
      assert t == t[..|t| - 1] + [t[|t| - 1]];
      EmptyOrReturn(t[..|t| - 1], t[|t| - 1]);
    }
  }

  /** Text that is newlines only comes back as one empty line. */
  lemma BlankText(text: Bytes, whole: seq<Bytes>, maxLines: int)
    requires maxLines > 0 && text != [] && !HasText(text)
    ensures LinesOf(text) == [[]]
    ensures IsSuffix(LastLines(LinesOf(text), maxLines), whole) <==>
            whole != [] && whole[|whole| - 1] == []
  {
    OnlyNewlines(text);
    assert DropCRs([[]]) == [[]];
    if whole != [] {
      assert whole[|whole| - 1..] == [whole[|whole| - 1]];
    }
  }

  /** A tail that starts inside the file and shows anything starts at a line. */
  lemma TailStartsALine(file: Bytes, maxBytes: int)
    requires 0 < maxBytes < |file| && Text(file, None, maxBytes) != []
    ensures exists cut: nat :: 0 < cut <= |file| && file[cut - 1] == NEWLINE
                               && Text(file, None, maxBytes) == file[cut..]
  {
    var start := |file| - maxBytes;
    var window := file[start..];
    assert window == file[start..End(|file|, None, maxBytes)];
    var cut := start + IndexOf(window, NEWLINE) + 1;
    assert window[cut - start..] == file[cut..];
  }

  /** The tail's lines are the last lines of the file exactly when the visible
      text holds a byte that is not a newline, or nothing at all is visible, or
      the tail starts at the file's beginning, or the file ends blank: it is
      newlines only, or its last line is a lone carriage return.  Otherwise the
      reply is one empty line the file does not end in. */
  lemma {:induction false} TailIsSuffixOfFile(file: Bytes, maxBytes: int, maxLines: int)
    requires maxBytes > 0 && maxLines > 0
    ensures var text := Text(file, None, maxBytes);
            var whole := LinesOf(file);
            IsSuffix(LastLines(LinesOf(text), maxLines), whole) <==>
            || HasText(text) || text == []
            || |file| <= maxBytes || EndsBlank(file)
  {
    var text := Text(file, None, maxBytes);
    var whole := LinesOf(file);
    if |file| <= maxBytes {
      assert text == file;
      assert whole[0..] == whole;
      LastOfSuffix(whole, whole, maxLines);
    } else if text == [] {
      assert whole[|whole|..] == [];
    } else if HasText(text) {
      TailWithText(file, maxBytes);
      LastOfSuffix(LinesOf(text), whole, maxLines);
    } else {
      BlankText(text, whole, maxLines);
      LastLineIsEmpty(file);
    }
  }

  lemma {:induction false} TailWithText(file: Bytes, maxBytes: int)
    requires 0 < maxBytes < |file| && HasText(Text(file, None, maxBytes))
    ensures IsSuffix(LinesOf(Text(file, None, maxBytes)), LinesOf(file))
  {
    var text := Text(file, None, maxBytes);
    TailStartsALine(file, maxBytes);
    var cut: nat :| 0 < cut <= |file| && file[cut - 1] == NEWLINE && text == file[cut..];
    assert file == file[..cut] + text;
    LinesAfterNewline(file[..cut], text);
  }

  lemma {:induction false} OneByteLine(x: byte)
    requires x != NEWLINE && x != CARRIAGE_RETURN
    ensures LinesOf([x]) == [[x]]
  {
    assert TrimNewlines([x]) == [x];
    SplitOne(x);
    assert DropCRs([[x]]) == [[x]];
  }

  /** Of a file that reads a and three newlines, a two-byte tail shows an empty
      line; the file ends in the line a. */
  lemma {:induction false} BlankTail(maxLines: int)
    requires maxLines > 0
    ensures var file := [97, NEWLINE, NEWLINE, NEWLINE];
            && LinesOf(file) == [[97]]
            && LastLines(LinesOf(Text(file, None, 2)), maxLines) == [[]]
            && !IsSuffix(LastLines(LinesOf(Text(file, None, 2)), maxLines), LinesOf(file))
  {
    var file: Bytes := [97, NEWLINE, NEWLINE, NEWLINE];
    OneByteLine(97);
    BlankAdds([97], [NEWLINE, NEWLINE, NEWLINE]);
    assert file == [97] + [NEWLINE, NEWLINE, NEWLINE];
    assert file[2..4] == [NEWLINE, NEWLINE] && [NEWLINE, NEWLINE][1..] == [NEWLINE];
    assert Text(file, None, 2) == [NEWLINE];
    BlankText([NEWLINE], LinesOf(file), maxLines);
  }

  // ---- Continuation reads ----------------------------------------------

  /** Polls of a growing file: poll i sees files[i] and reads from where poll
      i - 1 ended. */
  ghost predicate Grows(files: seq<Bytes>) {
    forall i | 0 < i < |files| :: files[i - 1] <= files[i]
  }

  function Offset(files: seq<Bytes>, from: nat, maxBytes: int, n: nat): nat
    requires maxBytes > 0 && n <= |files|
    decreases n
  {
    if n == 0 then from
    else End(|files[n - 1]|, Some(Offset(files, from, maxBytes, n - 1)), maxBytes)
  }

  /** Everything the first n polls read, in order. */
  function Read(files: seq<Bytes>, from: nat, maxBytes: int, n: nat): Bytes
    requires maxBytes > 0 && n <= |files|
    decreases n
  {
    if n == 0 then []
    else Read(files, from, maxBytes, n - 1)
         + Text(files[n - 1], Some(Offset(files, from, maxBytes, n - 1)), maxBytes)
  }

  /** Chained reads of an append-only file cover every byte from the first
      offset exactly once, and each poll moves forward whenever there is more. */
  lemma {:induction false} ChainedReadsCoverTheFile(
    files: seq<Bytes>, from: nat, maxBytes: int, n: nat)
    requires maxBytes > 0 && 0 < n <= |files| && Grows(files) && from <= |files[0]|
    ensures from <= Offset(files, from, maxBytes, n) <= |files[n - 1]|
    ensures Read(files, from, maxBytes, n) == files[n - 1][from..Offset(files, from, maxBytes, n)]
    ensures var before := Offset(files, from, maxBytes, n - 1);
            before < |files[n - 1]| ==> Offset(files, from, maxBytes, n) > before
    decreases n
  {
    var file := files[n - 1];
    var before := Offset(files, from, maxBytes, n - 1);
    var after := Offset(files, from, maxBytes, n);
    if n > 1 {
      ChainedReadsCoverTheFile(files, from, maxBytes, n - 1);
      assert files[n - 2] <= file;
      assert files[n - 2][from..before] == file[from..before];
    } else {
      assert Read(files, from, maxBytes, 0) == file[from..before];
    }
    assert Text(file, Some(before), maxBytes) == file[before..after];
    assert file[from..before] + file[before..after] == file[from..after];
  }

  // ---- Lines of continuation reads -------------------------------------

  /** Ends in one newline and no more. */
  predicate EndsOnce(a: Bytes) {
    a != [] && a[|a| - 1] == NEWLINE && (|a| == 1 || a[|a| - 2] != NEWLINE)
  }

  /** What is read next only completes the line that `a` broke off: a newline, or
      a carriage return and a newline. */
  predicate Completes(a: Bytes, b: Bytes)
    requires a != [] && b != []
  {
    || b[0] == NEWLINE
    || (|b| > 1 && b[0] == CARRIAGE_RETURN && b[1] == NEWLINE && a[|a| - 1] != CARRIAGE_RETURN)
  }

  /** After `a` has been read, the last lines of `b` continue the lines of `a`. */
  predicate Fits(a: Bytes, b: Bytes, maxLines: int) {
    || b == []
    || (a == [] && |LinesOf(b)| <= maxLines)
    || (&& a != [] && HasText(b)
        && (|| (EndsOnce(a) && |LinesOf(b)| <= maxLines)
            || (a[|a| - 1] != NEWLINE && |LinesOf(b)| == maxLines + 1 && Completes(a, b))))
  }

  lemma DropCRsAppend(xs: seq<Bytes>, ys: seq<Bytes>)
    ensures DropCRs(xs + ys) == DropCRs(xs) + DropCRs(ys)
  {
  }

  /** How many pieces the newlines at the end add. */
  lemma {:induction false} TrimmedPieces(a: Bytes)
    ensures |Split(a)| == |Split(TrimNewlines(a))| + (|a| - |TrimNewlines(a)|)
  {
    if a != [] && a[|a| - 1] == NEWLINE {
      TrimmedPieces(a[..|a| - 1]);
      assert a == a[..|a| - 1] + [NEWLINE];
      SplitGlued(a[..|a| - 1], [NEWLINE]);
      SplitOne(NEWLINE);
    }
  }

  lemma EndsOnceTrimmed(a: Bytes)
    requires a != []
    ensures EndsOnce(a) <==> |TrimNewlines(a)| == |a| - 1
    ensures EndsOnce(a) ==> TrimNewlines(a) == a[..|a| - 1]
    ensures a[|a| - 1] != NEWLINE <==> TrimNewlines(a) == a
  {
    Trimmed(a);
    if |a| > 1 && a[|a| - 1] == NEWLINE {
      Trimmed(a[..|a| - 1]);
    }
  }

  /** A text that ends in one newline, and one after it. */
  lemma OnceFits(a: Bytes, b: Bytes, maxLines: int)
    requires maxLines > 0 && EndsOnce(a) && HasText(b)
    ensures LinesOf(a) + LastLines(LinesOf(b), maxLines) == LinesOf(a + b) <==> |LinesOf(b)| <= maxLines
  {
    var front, t := a[..|a| - 1], TrimNewlines(b);
    TrimAppend(a, b);
    EndsOnceTrimmed(a);
    assert a + t == front + [NEWLINE] + t;
    SplitAppend(front, t);
    DropCRsAppend(Split(front), Split(t));
    assert LinesOf(a + b) == LinesOf(a) + LinesOf(b);
  }

  lemma DropCRGlued(p: Bytes, q: Bytes)
    ensures DropCR(p + q) == DropCR(p) <==>
            q == [] || (q == [CARRIAGE_RETURN] && (p == [] || p[|p| - 1] != CARRIAGE_RETURN))
  {
    if q == [] {
      assert p + q == p;
    } else if |q| == 1 {
      assert (p + q)[..|p|] == p;
    } else {
      assert |DropCR(p + q)| > |p|;
    }
  }

  lemma GluedLines(xs: seq<Bytes>, ys: seq<Bytes>)
    requires xs != [] && ys != []
    ensures DropCRs(xs) + DropCRs(ys)[1..] == DropCRs(Glued(xs, ys)) <==>
            DropCR(Last(xs) + ys[0]) == DropCR(Last(xs))
  {
    var l, r := DropCRs(xs) + DropCRs(ys)[1..], DropCRs(Glued(xs, ys));
    assert |l| == |r| && l[|xs| - 1] == DropCR(Last(xs)) && r[|xs| - 1] == DropCR(Last(xs) + ys[0]);
    assert forall i | 0 <= i < |l| && i != |xs| - 1 :: l[i] == r[i];
  }

  lemma LastOfBrokenLine(a: Bytes)
    requires a != [] && a[|a| - 1] != NEWLINE
    ensures Last(Split(a)) != [] && Last(Split(a))[|Last(Split(a))| - 1] == a[|a| - 1]
  {
    assert a == a[..|a| - 1] + [a[|a| - 1]];
    LastPiece(a[..|a| - 1], a[|a| - 1]);
  }

  /** The first piece of the next text, when it has more than one. */
  lemma FirstOfNext(a: Bytes, b: Bytes)
    requires a != [] && HasText(b) && NEWLINE in TrimNewlines(b)
    ensures var q := Split(TrimNewlines(b))[0];
            Completes(a, b) <==> q == [] || (q == [CARRIAGE_RETURN] && a[|a| - 1] != CARRIAGE_RETURN)
  {
    var t := TrimNewlines(b);
    Trimmed(b);
    FirstPiece(t);
    var k := IndexOf(t, NEWLINE);
    assert t[0] == b[0] && (|t| > 1 ==> t[1] == b[1]);
    assert k == 0 <==> t[0] == NEWLINE;
    assert k > 0 ==> t[..k][0] == t[0];
    assert k > 1 ==> t[..k][1] == t[1];
  }

  /** A text that breaks off inside a line, and one after it: only a reply that
      leaves out its first line, when that is the end of the broken one, fits. */
  lemma BrokenFits(a: Bytes, b: Bytes, maxLines: int)
    requires maxLines > 0 && a != [] && a[|a| - 1] != NEWLINE && HasText(b)
    ensures LinesOf(a) + LastLines(LinesOf(b), maxLines) == LinesOf(a + b) <==>
            |LinesOf(b)| == maxLines + 1 && Completes(a, b)
  {
    var t := TrimNewlines(b);
    var xs, ys := Split(a), Split(t);
    TrimAppend(a, b);
    EndsOnceTrimmed(a);
    SplitGlued(a, t);
    assert LinesOf(a) == DropCRs(xs) && LinesOf(a + b) == DropCRs(Glued(xs, ys)) && LinesOf(b) == DropCRs(ys);
    if |ys| == maxLines + 1 {
      assert LastLines(LinesOf(b), maxLines) == DropCRs(ys)[1..];
      FirstPiece(t);
      GluedLines(xs, ys);
      DropCRGlued(Last(xs), ys[0]);
      LastOfBrokenLine(a);
      FirstOfNext(a, b);
    }
  }

  lemma {:induction false} BlankAdds(a: Bytes, b: Bytes)
    requires a != [] && b != [] && !HasText(b)
    ensures LinesOf(a + b) == LinesOf(a) && LinesOf(b) == [[]]
  {
    OnlyNewlines(b);
    assert DropCRs([[]]) == [[]];
    TrimBlank(a, b);
  }

  lemma {:induction false} TrimBlank(a: Bytes, b: Bytes)
    requires !HasText(b)
    ensures TrimNewlines(a + b) == TrimNewlines(a)
    decreases |b|
  {
    if b == [] {
      assert a + b == a;
    } else {
      assert (a + b)[|a + b| - 1] == b[|b| - 1] == NEWLINE;
      assert (a + b)[..|a + b| - 1] == a + b[..|b| - 1];
      TrimBlank(a, b[..|b| - 1]);
    }
  }

  lemma {:induction false} BlankDoesNotFit(a: Bytes, b: Bytes, maxLines: int)
    requires maxLines > 0 && a != [] && b != [] && !HasText(b)
    ensures LinesOf(a) + LastLines(LinesOf(b), maxLines) != LinesOf(a + b)
  {
    BlankAdds(a, b);
    assert |LinesOf(a) + LastLines(LinesOf(b), maxLines)| == |LinesOf(a)| + 1;
  }

  /** More than one newline at the end: a blank line is lost. */
  lemma {:induction false} LooseDoesNotFit(a: Bytes, b: Bytes, maxLines: int)
    requires maxLines > 0 && a != [] && a[|a| - 1] == NEWLINE && !EndsOnce(a) && HasText(b)
    ensures LinesOf(a) + LastLines(LinesOf(b), maxLines) != LinesOf(a + b)
  {
    EndsOnceTrimmed(a);
    TrimAppend(a, b);
    TrimmedPieces(a);
    Trimmed(a);
    SplitGlued(a, TrimNewlines(b));
    assert |LinesOf(a + b)| == |Split(a)| + |LinesOf(b)| - 1;
    assert |LinesOf(a)| <= |Split(a)| - 2;
  }

  /** Exactly when the reply to a later poll continues the lines read before. */
  lemma {:induction false} FitsIsExact(a: Bytes, b: Bytes, maxLines: int)
    requires maxLines > 0
    ensures LinesOf(a) + LastLines(LinesOf(b), maxLines) == LinesOf(a + b) <==> Fits(a, b, maxLines)
  {
    if b == [] {
      assert a + b == a && LinesOf(a) + [] == LinesOf(a);
    } else if a == [] {
      assert a + b == b && [] + LastLines(LinesOf(b), maxLines) == LastLines(LinesOf(b), maxLines);
    } else if !HasText(b) {
      BlankDoesNotFit(a, b, maxLines);
    } else if EndsOnce(a) {
      OnceFits(a, b, maxLines);
    } else if a[|a| - 1] != NEWLINE {
      BrokenFits(a, b, maxLines);
    } else {
      LooseDoesNotFit(a, b, maxLines);
    }
  }

  /** What a series of polls reads, given the text of each. */
  function Whole(texts: seq<Bytes>): Bytes {
    if texts == [] then [] else Whole(texts[..|texts| - 1]) + texts[|texts| - 1]
  }

  /** The lines of their replies, one after another. */
  function Replies(texts: seq<Bytes>, maxLines: int): seq<Bytes>
    requires maxLines > 0
  {
    if texts == [] then []
    else Replies(texts[..|texts| - 1], maxLines) + LastLines(LinesOf(texts[|texts| - 1]), maxLines)
  }

  /** Poll after poll, the replies so far are the lines of what was read so far. */
  predicate Followed(texts: seq<Bytes>, maxLines: int)
    requires maxLines > 0
  {
    texts == [] || (&& Followed(texts[..|texts| - 1], maxLines)
                    && Replies(texts, maxLines) == LinesOf(Whole(texts)))
  }

  /** Each poll fits what was read before it. */
  predicate EachFits(texts: seq<Bytes>, maxLines: int) {
    texts == [] || (&& EachFits(texts[..|texts| - 1], maxLines)
                    && Fits(Whole(texts[..|texts| - 1]), texts[|texts| - 1], maxLines))
  }

  lemma {:induction false} NextFollows(texts: seq<Bytes>, maxLines: int)
    requires maxLines > 0 && texts != []
    requires Replies(texts[..|texts| - 1], maxLines) == LinesOf(Whole(texts[..|texts| - 1]))
    ensures Replies(texts, maxLines) == LinesOf(Whole(texts)) <==>
            Fits(Whole(texts[..|texts| - 1]), texts[|texts| - 1], maxLines)
  {
    FitsIsExact(Whole(texts[..|texts| - 1]), texts[|texts| - 1], maxLines);
  }

  /** Chained replies are, poll after poll, the lines of what has been read since
      the first offset, exactly if each fits what was read before it: nothing
      truncated, everything before ending in one newline, and no poll of newlines
      only - but for a reply that leaves out just the end of a line broken off
      before. */
  lemma {:induction false} RepliesFollowTheFile(texts: seq<Bytes>, maxLines: int)
    requires maxLines > 0
    ensures Followed(texts, maxLines) <==> EachFits(texts, maxLines)
    ensures Followed(texts, maxLines) ==> Replies(texts, maxLines) == LinesOf(Whole(texts))
  {
    if texts == [] {
    } else {
      var init := texts[..|texts| - 1];
      RepliesFollowTheFile(init, maxLines);
      if Followed(init, maxLines) {
        NextFollows(texts, maxLines);
      }
    }
  }

  /** The texts of the first n polls of a growing file. */
  function Texts(files: seq<Bytes>, from: nat, maxBytes: int, n: nat): (texts: seq<Bytes>)
    requires maxBytes > 0 && n <= |files|
    ensures |texts| == n
  {
    if n == 0 then []
    else Texts(files, from, maxBytes, n - 1)
         + [Text(files[n - 1], Some(Offset(files, from, maxBytes, n - 1)), maxBytes)]
  }

  lemma {:induction false} ReadIsWhole(files: seq<Bytes>, from: nat, maxBytes: int, n: nat)
    requires maxBytes > 0 && n <= |files|
    ensures Read(files, from, maxBytes, n) == Whole(Texts(files, from, maxBytes, n))
  {
    if n == 0 {
    } else {
      ReadIsWhole(files, from, maxBytes, n - 1);
      assert Texts(files, from, maxBytes, n)[..n - 1] == Texts(files, from, maxBytes, n - 1);
    }
  }

  /** The same of the file itself: replies that fit are its lines from the first
      offset to the last. */
  lemma {:induction false} ChainedRepliesAreItsLines(
    files: seq<Bytes>, from: nat, maxBytes: int, maxLines: int, n: nat)
    requires maxBytes > 0 && maxLines > 0 && 0 < n <= |files| && Grows(files) && from <= |files[0]|
    requires EachFits(Texts(files, from, maxBytes, n), maxLines)
    ensures from <= Offset(files, from, maxBytes, n) <= |files[n - 1]|
    ensures Replies(Texts(files, from, maxBytes, n), maxLines) ==
            LinesOf(files[n - 1][from..Offset(files, from, maxBytes, n)])
  {
    RepliesFollowTheFile(Texts(files, from, maxBytes, n), maxLines);
    ReadIsWhole(files, from, maxBytes, n);
    ChainedReadsCoverTheFile(files, from, maxBytes, n);
  }

  // ---- Three short runs ------------------------------------------------

  /** A file read whole, and what a second poll reads once it has grown. */
  lemma {:induction false} TwoPolls(first: Bytes, more: Bytes, maxBytes: int)
    requires maxBytes >= |first| + |more| && maxBytes > 0
    ensures Texts([first, first + more], 0, maxBytes, 2) == [first, more]
  {
    var files := [first, first + more];
    assert Offset(files, 0, maxBytes, 0) == 0 && Offset(files, 0, maxBytes, 1) == |first|;
    assert Text(files[0], Some(0), maxBytes) == first;
    assert Text(files[1], Some(|first|), maxBytes) == more;
    assert Texts(files, 0, maxBytes, 0) == [];
    assert Texts(files, 0, maxBytes, 1) == [first];
  }

  lemma {:induction false} TwoReplies(first: Bytes, more: Bytes, maxLines: int)
    requires maxLines > 0
    ensures Whole([first]) == first && Whole([first, more]) == first + more
    ensures Replies([first], maxLines) == LastLines(LinesOf(first), maxLines)
    ensures Replies([first, more], maxLines) ==
            LastLines(LinesOf(first), maxLines) + LastLines(LinesOf(more), maxLines)
  {
    assert [first, more][..1] == [first] && [first][..0] == [];
    assert Whole([first]) == [] + first;
    assert Replies([first], maxLines) == [] + LastLines(LinesOf(first), maxLines);
  }

  /** Nothing is truncated, but of two newlines at the end of a read one is lost: the
      replies to a and two newlines, and then b, leave the blank line out. */
  lemma {:induction false} BlankLineLost()
    ensures var files: seq<Bytes> := [[97, NEWLINE, NEWLINE], [97, NEWLINE, NEWLINE] + [98, NEWLINE]];
            var texts := Texts(files, 0, 100, 2);
            && texts == [[97, NEWLINE, NEWLINE], [98, NEWLINE]]
            && |LinesOf(texts[0])| == |LinesOf(texts[1])| == 1
            && Replies(texts, 10) != LinesOf(files[1])
  {
    var first: Bytes, more: Bytes := [97, NEWLINE, NEWLINE], [98, NEWLINE];
    TwoPolls(first, more, 100);
    TwoReplies(first, more, 10);
    OneByteLine(97);
    OneByteLine(98);
    BlankAdds([97], [NEWLINE, NEWLINE]);
    BlankAdds([98], [NEWLINE]);
    assert first == [97] + [NEWLINE, NEWLINE] && more == [98] + [NEWLINE];
    assert more[0] != NEWLINE && !EndsOnce(first) && !Fits(first, more, 10);
    FitsIsExact(first, more, 10);
  }

  /** A truncated reply may even be the one that is right: what it leaves out is the
      newline of the line that the reply before broke off. */
  lemma {:induction false} TruncationMakesUp()
    ensures var files: seq<Bytes> := [[97], [97] + [NEWLINE, 98]];
            var texts := Texts(files, 0, 100, 2);
            && texts == [[97], [NEWLINE, 98]] && |LinesOf(texts[1])| == 2
            && Replies(texts, 1) == LinesOf(files[1])
  {
    var first: Bytes, more: Bytes := [97], [NEWLINE, 98];
    TwoPolls(first, more, 100);
    TwoReplies(first, more, 1);
    OneByteLine(97);
    assert TrimNewlines(more) == more && more == [] + [NEWLINE] + [98];
    SplitAppend([], [98]);
    SplitOne(98);
    assert more[1] != NEWLINE && HasText(more) && Fits(first, more, 1);
    FitsIsExact(first, more, 1);
  }

  /** Why poll after poll: over several polls a line too many and a line too few can
      cancel out.  The newline after a is read as a blank line, and the blank line
      before b is lost; between them is one that holds a carriage return only. */
  lemma {:induction false} LossesCancel()
    ensures var texts: seq<Bytes> := [[97], [NEWLINE, CARRIAGE_RETURN, NEWLINE, NEWLINE], [98]];
            Replies(texts, 10) == LinesOf(Whole(texts)) && !Followed(texts, 10)
  {
    var a: Bytes, r: Bytes, b: Bytes := [97], [NEWLINE, CARRIAGE_RETURN, NEWLINE, NEWLINE], [98];
    var texts := [a, r, b];
    assert texts[..2] == [a, r] && [a, r][..1] == [a];
    TwoReplies(a, r, 10);
    OneByteLine(97);
    OneByteLine(98);
    ReturnBetween();
    assert Whole(texts) == a + r + b && Replies(texts, 10) == [a, [], [], b];
    assert [a] + [[], []] != [a, []];
    assert !Followed([a, r], 10) && !Followed(texts, 10);
  }

  lemma {:induction false} ReturnBetween()
    ensures var a: Bytes, r: Bytes, b: Bytes := [97], [NEWLINE, CARRIAGE_RETURN, NEWLINE, NEWLINE], [98];
            LinesOf(r) == [[], []] && LinesOf(a + r) == [a, []] && LinesOf(a + r + b) == [a, [], [], b]
  {
    var a: Bytes, b: Bytes, cr: Bytes, end: Bytes := [97], [98], [CARRIAGE_RETURN], [NEWLINE, NEWLINE];
    var r: Bytes := [NEWLINE, CARRIAGE_RETURN, NEWLINE, NEWLINE];
    SplitOne(97);
    SplitOne(98);
    SplitOne(CARRIAGE_RETURN);
    assert LinesOf(r) == [[], []] by {
      assert r == ([] + [NEWLINE] + cr) + end;
      BlankAdds([] + [NEWLINE] + cr, end);
      SplitAppend([], cr);
      assert DropCRs([[], cr]) == [[], []];
    }
    assert LinesOf(a + r) == [a, []] by {
      assert a + r == (a + [NEWLINE] + cr) + end;
      BlankAdds(a + [NEWLINE] + cr, end);
      SplitAppend(a, cr);
      assert DropCRs([a, cr]) == [a, []];
    }
    assert LinesOf(a + r + b) == [a, [], [], b] by {
      var back := [] + [NEWLINE] + b;
      assert a + r + b == a + [NEWLINE] + (cr + [NEWLINE] + back);
      SplitAppend([], b);
      SplitAppend(cr, back);
      SplitAppend(a, cr + [NEWLINE] + back);
      assert DropCRs([a, cr, [], b]) == [a, [], [], b];
    }
  }
}
