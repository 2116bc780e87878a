/** The agent's append-only command journal: one JSON object per line, replayed
    into a map at start.  encoding/json is a library, so the line format is a
    parameter constrained by laws (`Lawful`), which JsonLines shows the agent's
    own lines to satisfy. */
module Journal {
  import opened Common

  datatype Status = Received | Running | Completed | Unknown

  datatype Entry = Entry(id: nat, status: Status, recordedAt: nat)

  datatype Codec = Codec(marshal: Entry -> seq<byte>, unmarshal: seq<byte> -> Option<Entry>)

  /** A scanner token of this many bytes or more is ErrTooLong. */
  const MAX_LINE: nat := 1024 * 1024

  /** `s` is k non-empty initial parts of marshalled entries, glued together:
      what interrupted writes leave on one line. */
  ghost predicate Pieces(c: Codec, s: seq<byte>, k: nat)
    decreases k
  {
    if k == 0 then s == []
    else exists t, e, n: nat {:trigger Pieces(c, t, k - 1), c.marshal(e)[..n]} ::
           0 < n <= |c.marshal(e)| && Pieces(c, t, k - 1) && s == t + c.marshal(e)[..n]
  }

  /** JSON objects hold no raw control byte, round-trip, and neither a proper
      prefix of one nor two or more pieces glued together is a JSON value. */
  ghost predicate Lawful(c: Codec) {
    && (forall e :: c.marshal(e) != [] && c.unmarshal(c.marshal(e)) == Some(e))
    && (forall e :: NEWLINE !in c.marshal(e) && CARRIAGE_RETURN !in c.marshal(e))
    && (forall e, n: nat {:trigger c.marshal(e)[..n]} |
          0 < n < |c.marshal(e)| :: c.unmarshal(c.marshal(e)[..n]) == None)
    && (forall s, k: nat {:trigger Pieces(c, s, k)} |
          k >= 2 && Pieces(c, s, k) :: c.unmarshal(s) == None)
  }

  function Line(c: Codec, e: Entry): seq<byte> {
    c.marshal(e) + [NEWLINE]
  }

  type Entries = map<nat, Status>

  /** One token of the scan: empty and unparsable lines are skipped. */
  function Apply(c: Codec, entries: Entries, token: seq<byte>): Entries {
    var line := DropCR(token);
    if line == [] then entries
    else match c.unmarshal(line)
      case None => entries
      case Some(e) => entries[e.id := e.status]
  }

  /** What a scan of the file makes of `entries`; None is ErrTooLong. */
  function ReplayFrom(c: Codec, file: seq<byte>, entries: Entries): Option<Entries>
    decreases |file|, 1
  {
    if file == [] then Some(entries) else ReplayToken(c, file, entries, IndexOf(file, NEWLINE))
  }

  /** The token that ends at index k, and the rest. */
  function ReplayToken(c: Codec, file: seq<byte>, entries: Entries, k: nat): Option<Entries>
    requires k <= |file|
    decreases |file|, 0
  {
    if k >= MAX_LINE then None
    else if k == |file| then Some(Apply(c, entries, file))
    else ReplayFrom(c, file[k + 1..], Apply(c, entries, file[..k]))
  }

  function Replay(c: Codec, file: seq<byte>): Option<Entries> {
    ReplayFrom(c, file, map[])
  }

  predicate Terminated(file: seq<byte>) {
    file == [] || file[|file| - 1] == NEWLINE
  }

  /** The loop of `replay` computes Replay. */
  method Scan(c: Codec, file: seq<byte>) returns (r: Option<Entries>)
    ensures r == Replay(c, file)
  {
    var entries: Entries := map[];
    var rest := file;
    while rest != []
      invariant ReplayFrom(c, rest, entries) == Replay(c, file)
      decreases |rest|
    {
      var k := IndexOf(rest, NEWLINE);
      if k >= MAX_LINE {
        return None;
      }
      var line := DropCR(rest[..k]);
      if line != [] {
        var parsed := c.unmarshal(line);
        if parsed.Some? {
          entries := entries[parsed.value.id := parsed.value.status];
        }
      }
      assert k == |rest| ==> rest[..k] == rest;
      rest := if k == |rest| then [] else rest[k + 1..];
    }
    return Some(entries);
  }

  lemma {:induction false} IndexOfAppend(s: seq<byte>, t: seq<byte>)
    ensures IndexOf(s, NEWLINE) < |s| ==> IndexOf(s + t, NEWLINE) == IndexOf(s, NEWLINE)
    ensures NEWLINE !in s ==> IndexOf(s + t, NEWLINE) == |s| + IndexOf(t, NEWLINE)
  {
    if s == [] {
      assert s + t == t;
    } else if s[0] != NEWLINE {
      assert (s + t)[1..] == s[1..] + t;
      IndexOfAppend(s[1..], t);
    }
  }

  lemma {:induction false} FirstLine(c: Codec, file: seq<byte>, entries: Entries)
    requires NEWLINE in file
    ensures var k := IndexOf(file, NEWLINE);
            k < |file| && ReplayFrom(c, file, entries) ==
              if k >= MAX_LINE then None else ReplayFrom(c, file[k + 1..], Apply(c, entries, file[..k]))
  {
    var k := IndexOf(file, NEWLINE);
    assert file != [] && k < |file|;
  }

  /** Scanning a newline-terminated file and then more is scanning both in turn. */
  lemma {:induction false} ReplayAppend(c: Codec, file: seq<byte>, more: seq<byte>, entries: Entries)
    requires Terminated(file)
    ensures var first := ReplayFrom(c, file, entries);
            ReplayFrom(c, file + more, entries) ==
            if first.None? then None else ReplayFrom(c, more, first.value)
    decreases |file|
  {
    if file == [] {
      assert file + more == more;
    } else {
      var k := IndexOf(file, NEWLINE);
      assert NEWLINE in file;
      FirstLine(c, file, entries);
      FirstLine(c, file + more, entries);
      IndexOfAppend(file, more);
      assert (file + more)[..k] == file[..k];
      assert (file + more)[k + 1..] == file[k + 1..] + more;
      if k < MAX_LINE {
        ReplayAppend(c, file[k + 1..], more, Apply(c, entries, file[..k]));
      }
    }
  }

  lemma {:induction false} ReplayFragment(c: Codec, frag: seq<byte>, entries: Entries)
    requires NEWLINE !in frag && CARRIAGE_RETURN !in frag
    ensures ReplayFrom(c, frag, entries) ==
            if |frag| >= MAX_LINE then None
            else if frag == [] || c.unmarshal(frag).None? then Some(entries)
            else Some(entries[c.unmarshal(frag).value.id := c.unmarshal(frag).value.status])
  {
    IndexOfAppend(frag, []);
    assert frag + [] == frag;
  }

  lemma {:induction false} ReplayOneLine(c: Codec, text: seq<byte>, entries: Entries)
    requires NEWLINE !in text && CARRIAGE_RETURN !in text && text != []
    ensures ReplayFrom(c, text + [NEWLINE], entries) == ReplayFrom(c, text, entries)
  {
    var line := text + [NEWLINE];
    IndexOfAppend(text, [NEWLINE]);
    assert IndexOf(text, NEWLINE) == |text| && IndexOf(line, NEWLINE) == |text|;
    assert line[..|text|] == text && line[|text| + 1..] == [];
    assert NEWLINE in line;
    FirstLine(c, line, entries);
    assert ReplayFrom(c, [], Apply(c, entries, text)) == Some(Apply(c, entries, text));
  }

  /** Record on a newline-terminated file updates the replayed map. */
  lemma {:induction false} RecordIsReplayed(c: Codec, file: seq<byte>, e: Entry)
    requires Lawful(c) && Terminated(file) && Replay(c, file).Some?
    ensures Terminated(file + Line(c, e))
    ensures Replay(c, file + Line(c, e)) ==
            if |c.marshal(e)| < MAX_LINE then Some(Replay(c, file).value[e.id := e.status]) else None
  {
    ReplayAppend(c, file, Line(c, e), map[]);
    ReplayOneLine(c, c.marshal(e), Replay(c, file).value);
    ReplayFragment(c, c.marshal(e), Replay(c, file).value);
  }

  function Lines(c: Codec, es: seq<Entry>): seq<byte> {
    if es == [] then [] else Lines(c, es[..|es| - 1]) + Line(c, es[|es| - 1])
  }

  predicate AllFit(c: Codec, es: seq<Entry>) {
    forall e | e in es :: |c.marshal(e)| < MAX_LINE
  }

  lemma AllFitAppend(c: Codec, init: seq<Entry>, e: Entry)
    ensures AllFit(c, init + [e]) <==> AllFit(c, init) && |c.marshal(e)| < MAX_LINE
  {
    assert e in init + [e];
    assert forall x | x in init :: x in init + [e];
  }

  /** The in-memory map after the same records. */
  function Recorded(entries: Entries, es: seq<Entry>): Entries {
    if es == [] then entries
    else Recorded(entries, es[..|es| - 1])[es[|es| - 1].id := es[|es| - 1].status]
  }

  /** Reopening refines memory: after any sequence of successful records on a
      newline-terminated file, replay gives exactly the in-memory map, unless
      some line reached the scanner's limit, and then Open fails. */
  lemma {:induction false} ReopenAfterRecords(c: Codec, file: seq<byte>, es: seq<Entry>)
    requires Lawful(c) && Terminated(file) && Replay(c, file).Some?
    ensures Terminated(file + Lines(c, es))
    ensures Replay(c, file + Lines(c, es)) ==
            if AllFit(c, es)
            then Some(Recorded(Replay(c, file).value, es)) else None
  {
    if es == [] {
      assert file + Lines(c, es) == file;
    } else {
      var init, e := es[..|es| - 1], es[|es| - 1];
      ReopenAfterRecords(c, file, init);
      assert AllFit(c, es) <==> AllFit(c, init) && |c.marshal(e)| < MAX_LINE by {
        assert es == init + [e];
        AllFitAppend(c, init, e);
      }
      var file' := file + Lines(c, init);
      assert file + Lines(c, es) == file' + Line(c, e);
      OneMoreRecord(c, file', e);
    }
  }

  lemma {:induction false} OneMoreRecord(c: Codec, file: seq<byte>, e: Entry)
    requires Lawful(c) && Terminated(file)
    ensures Terminated(file + Line(c, e))
    ensures Replay(c, file + Line(c, e)) ==
            if Replay(c, file).Some? && |c.marshal(e)| < MAX_LINE
            then Some(Replay(c, file).value[e.id := e.status]) else None
  {
    if Replay(c, file).Some? {
      RecordIsReplayed(c, file, e);
    } else {
      ReplayAppend(c, file, Line(c, e), map[]);
    }
  }

  lemma {:induction false} PiecesAreClean(c: Codec, s: seq<byte>, k: nat)
    requires Lawful(c) && Pieces(c, s, k)
    ensures NEWLINE !in s && CARRIAGE_RETURN !in s && (s == [] <==> k == 0)
    decreases k
  {
    if k == 0 {
    } else {
      var t, e, n: nat :| 0 < n <= |c.marshal(e)| && Pieces(c, t, k - 1)
                          && s == t + c.marshal(e)[..n];
      PiecesAreClean(c, t, k - 1);
    }
  }

  lemma AddPiece(c: Codec, s: seq<byte>, k: nat, e: Entry, n: nat)
    requires Pieces(c, s, k) && 0 < n <= |c.marshal(e)|
    ensures Pieces(c, s + c.marshal(e)[..n], k + 1)
  {
  }

  /** A torn last line: the complete lines replay to the same map; only a
      single piece that lacks nothing but its newline still counts. */
  lemma {:induction false} TornFragment(c: Codec, file: seq<byte>, frag: seq<byte>, k: nat)
    requires Lawful(c) && Terminated(file) && Pieces(c, frag, k)
    requires Replay(c, file).Some? && Replay(c, file + frag).Some?
    ensures c.unmarshal(frag).None? || k == 0 ==> Replay(c, file + frag) == Replay(c, file)
    ensures c.unmarshal(frag).Some? && k > 0 ==>
              var e := c.unmarshal(frag).value;
              k == 1 && frag == c.marshal(e)
              && Replay(c, file + frag) == Some(Replay(c, file).value[e.id := e.status])
  {
    PiecesAreClean(c, frag, k);
    ReplayAppend(c, file, frag, map[]);
    ReplayFragment(c, frag, Replay(c, file).value);
    if k == 1 {
      var t, e, n: nat :| 0 < n <= |c.marshal(e)| && Pieces(c, t, 0) && frag == t + c.marshal(e)[..n];
      assert frag == c.marshal(e)[..n];
      assert n == |c.marshal(e)| ==> frag == c.marshal(e);
    }
  }

  /** Reopening does not repair a torn line: the next record is appended onto
      it, and then neither the fragment nor that record survives a replay. */
  lemma {:induction false} AppendAfterFragment(c: Codec, file: seq<byte>, frag: seq<byte>, k: nat, e: Entry)
    requires Lawful(c) && Terminated(file) && Pieces(c, frag, k) && Replay(c, file).Some?
    ensures Terminated(file + frag + Line(c, e))
    ensures Replay(c, file + frag + Line(c, e)) ==
            if |frag| + |c.marshal(e)| >= MAX_LINE then None
            else if frag == [] then Some(Replay(c, file).value[e.id := e.status])
            else Replay(c, file)
  {
    assert file + frag + Line(c, e) == file + (frag + c.marshal(e) + [NEWLINE]);
    ReplayAppend(c, file, frag + c.marshal(e) + [NEWLINE], map[]);
    GluedLine(c, frag, k, e, Replay(c, file).value);
  }

  /** A record glued onto a fragment is a line that says nothing. */
  lemma {:induction false} GluedLine(c: Codec, frag: seq<byte>, k: nat, e: Entry, entries: Entries)
    requires Lawful(c) && Pieces(c, frag, k)
    ensures ReplayFrom(c, frag + c.marshal(e) + [NEWLINE], entries) ==
            if |frag| + |c.marshal(e)| >= MAX_LINE then None
            else if frag == [] then Some(entries[e.id := e.status])
            else Some(entries)
  {
    var glued := frag + c.marshal(e);
    GluedPieces(c, frag, k, e);
    ReplayOneLine(c, glued, entries);
    ReplayFragment(c, glued, entries);
    assert frag == [] ==> glued == c.marshal(e);
  }

  lemma GluedPieces(c: Codec, frag: seq<byte>, k: nat, e: Entry)
    requires Lawful(c) && Pieces(c, frag, k)
    ensures frag == [] <==> k == 0
    ensures var glued := frag + c.marshal(e);
            && Pieces(c, glued, k + 1) && NEWLINE !in glued && CARRIAGE_RETURN !in glued && glued != []
  {
    AddPiece(c, frag, k, e, |c.marshal(e)|);
    assert c.marshal(e)[..|c.marshal(e)|] == c.marshal(e);
    PiecesAreClean(c, frag, k);
    PiecesAreClean(c, frag + c.marshal(e), k + 1);
  }

  /** The open journal. */
  class JournalFile {
    const codec: Codec
    var file: seq<byte>
    var entries: Entries

    /** What is on disk replays to what is in memory, and can be appended to. */
    ghost predicate Synced()
      reads this
    {
      Terminated(file) && Replay(codec, file) == Some(entries)
    }

    constructor (codec: Codec, file: seq<byte>, entries: Entries)
      requires Replay(codec, file) == Some(entries)
      ensures this.codec == codec && this.file == file && this.entries == entries
    {
      this.codec, this.file, this.entries := codec, file, entries;
    }

    /** On a synced file, the answer a reopened journal would give. */
    method IsCompleted(id: nat) returns (r: bool)
      ensures r <==> id in entries && entries[id] == Completed
      ensures Synced() ==>
                (r <==> id in Replay(codec, file).value && Replay(codec, file).value[id] == Completed)
    {
      r := id in entries && entries[id] == Completed;
    }

    /** `written` is how much of the line the write manages, `synced` how the
        sync ends.  A failed write leaves a proper prefix of the line behind, a
        failed sync the whole line.  Memory changes only on success. */
    method Record(id: nat, status: Status, now: nat, written: nat, synced: bool) returns (ok: bool)
      requires Lawful(codec)
      modifies this`file, this`entries
      ensures var line := Line(codec, Entry(id, status, now));
              && (ok <==> written >= |line| && synced)
              && file == old(file) + if written < |line| then line[..written] else line
      ensures entries == if ok then old(entries)[id := status] else old(entries)
      ensures old(Synced()) && ok && |codec.marshal(Entry(id, status, now))| < MAX_LINE ==> Synced()
    {
      var data := Line(codec, Entry(id, status, now));
      ghost var before := file;
      if written < |data| {
        file := file + data[..written];
        return false;
      }
      file := file + data;
      if !synced {
        return false;
      }
      entries := entries[id := status];
      if Terminated(before) && Replay(codec, before).Some? {
        RecordIsReplayed(codec, before, Entry(id, status, now));
      }
      return true;
    }
  }
}
