/**
 Resumable REST responses (`RestResumeJob`, `RestResumeSink`).

 A response that does not fit the client's buffer is regenerated on every
 pass. The part already sent is skipped leaf by leaf and its structure checked
 against a CRC; what follows is sent one leaf segment at a time while there is
 room.
 */
module RestResume {
  import opened JsonText
  import opened LeafLexer
  import opened Crc32

  const SEGMENT: nat := 512

  datatype PassResult = Complete | Paused | Failed

  /** What a job remembers between passes: leaves sent, and the CRC of the structure up to there. */
  datatype Progress = Progress(leaves: nat, crc: bv32)

  // ----- Cutting a document at its leaf ends -----

  function ByteOf(c: char): bv8 {
    (c as int % 256) as bv8
  }

  /** The structural bytes of `text`. */
  function Structure(text: string, mask: seq<bool>): seq<bv8>
    requires |text| == |mask|
  {
    if text == "" then []
    else
      var n := |text| - 1;
      Structure(text[..n], mask[..n]) + (if mask[n] then [ByteOf(text[n])] else [])
  }

  function StructureCrc(text: string, mask: seq<bool>): bv32
    requires |text| == |mask|
  {
    Crc(0, Structure(text, mask))
  }

  ghost predicate Ordered(ends: seq<nat>, limit: nat) {
    && (forall i, j :: 0 <= i <= j < |ends| ==> ends[i] <= ends[j])
    && (forall i :: 0 <= i < |ends| ==> ends[i] <= limit)
  }

  /** Where the first `n` leaves end; nothing is sent before the first leaf. */
  function CutAt(ends: seq<nat>, n: nat): nat
    requires n <= |ends|
  {
    if n == 0 then 0 else ends[n - 1]
  }

  function Ends(doc: string): seq<nat> {
    Settle(ScanText(doc)).ends
  }

  function Cut(doc: string, n: nat): (k: nat)
    requires n <= |Ends(doc)|
    ensures k <= |doc|
  {
    EndsOrdered(doc);
    CutAt(Ends(doc), n)
  }

  /** CRC of the structure in front of (and inside) the first `n` leaves. */
  function CrcAt(doc: string, n: nat): bv32
    requires n <= |Ends(doc)|
  {
    ScanTextKeeps(doc);
    StructureCrc(doc[..Cut(doc, n)], ScanText(doc).mask[..Cut(doc, n)])
  }

  lemma ScanTextKeeps(text: string)
    ensures var t := ScanText(text); Fits(t.lex) && t.pos == |text| == |t.mask|
  {
    hide ScanFrom;
    ScanKeeps(ScanStart(), text);
  }

  lemma {:induction false} ScanOrdered(text: string)
    ensures Ordered(ScanText(text).ends, |text|)
  {
    hide Feed;
    if text != "" {
      var n := |text| - 1;
      ScanOrdered(text[..n]);
      ScanTextKeeps(text[..n]);
    }
  }

  lemma EndsOrdered(doc: string)
    ensures Ordered(Ends(doc), |doc|)
    ensures ScanText(doc).ends <= Ends(doc)
  {
    hide ScanFrom;
    ScanOrdered(doc);
    ScanTextKeeps(doc);
  }

  /** Ends reported after `text` lie at or beyond its end. */
  lemma {:induction false} LaterEnds(text: string, more: string)
    ensures var t, u := ScanText(text), ScanText(text + more);
            && t.ends <= u.ends && t.mask <= u.mask
            && forall i :: |t.ends| <= i < |u.ends| ==> |text| <= u.ends[i]
  {
    hide Feed;
    if more == "" {
      assert text + more == text;
    } else {
      var n := |more| - 1;
      LaterEnds(text, more[..n]);
      assert (text + more)[..|text| + n] == text + more[..n];
      ScanTextKeeps(text + more[..n]);
    }
  }

  /** `CutAt` and `StructureCrc` of what was scanned so far are those of the document. */
  lemma PrefixAgrees(doc: string, fed: string, ends: seq<nat>, mask: seq<bool>, n: nat)
    requires fed <= doc && |mask| == |fed| && mask <= ScanText(doc).mask
    requires Ordered(ends, |fed|) && ends <= Ends(doc) && n <= |ends|
    ensures CutAt(ends, n) == Cut(doc, n) <= |fed|
    ensures fed[..CutAt(ends, n)] == doc[..Cut(doc, n)]
    ensures StructureCrc(fed[..CutAt(ends, n)], mask[..CutAt(ends, n)]) == CrcAt(doc, n)
  {
    hide ScanFrom, StructureCrc;
    ScanTextKeeps(doc);
    var k := CutAt(ends, n);
    assert k == Cut(doc, n);
    assert fed[..k] == doc[..k] && mask[..k] == ScanText(doc).mask[..k];
  }

  lemma CutsOrdered(ends: seq<nat>, limit: nat, a: nat, b: nat)
    requires Ordered(ends, limit) && a <= b <= |ends|
    ensures CutAt(ends, a) <= CutAt(ends, b) <= limit
  {}

  lemma WaitingPart(sent: string, waiting: string, base: string, text: string, from: nat, to: nat)
    requires from <= to <= |text|
    requires sent + waiting == base + text[from..] && sent == base + text[from..to]
    ensures waiting == text[to..]
  {
    assert sent + waiting == sent + text[to..];
    assert (sent + waiting)[|sent|..] == waiting;
    assert (sent + text[to..])[|sent|..] == text[to..];
  }

  // ----- One pass -----

  /** The regenerated document agrees with what was sent: the pass gets past its CRC check. */
  ghost predicate Resumes(doc: string, p: Progress) {
    p.leaves <= |Ends(doc)| && (p.leaves > 0 ==> p.crc == CrcAt(doc, p.leaves))
  }

  /** What one pass over `doc` does: resume point before and after, bytes written, result. */
  ghost predicate PassSpec(doc: string, p: Progress, q: Progress, out: string, r: PassResult) {
    if !Resumes(doc, p) then r == Failed && out == ""
    else
      match r
      case Complete => out == doc[Cut(doc, p.leaves)..]
      case Paused =>
        && p.leaves <= q.leaves && Resumes(doc, q)
        && Cut(doc, p.leaves) <= Cut(doc, q.leaves)
        && out == doc[Cut(doc, p.leaves)..Cut(doc, q.leaves)]
        && (q.leaves == p.leaves ==> q == p)
      case Failed => out <= doc[Cut(doc, p.leaves)..]
  }

  /** The structural bytes before the resume point. */
  function SkippedStructure(doc: string, n: nat): seq<bv8>
    requires n <= |Ends(doc)|
  {
    ScanTextKeeps(doc);
    Structure(doc[..Cut(doc, n)], ScanText(doc).mask[..Cut(doc, n)])
  }

  /**
   A pass over a document whose structure before the resume point differs
   from what was sent anywhere within four adjacent bytes fails and writes
   nothing.
   */
  lemma ChangedStructureFails(sent: string, doc: string, p: Progress, q: Progress, out: string, r: PassResult,
                              before: seq<bv8>, a: seq<bv8>, b: seq<bv8>, after: seq<bv8>)
    requires 0 < p.leaves <= |Ends(sent)| && p.leaves <= |Ends(doc)| && p.crc == CrcAt(sent, p.leaves)
    requires SkippedStructure(sent, p.leaves) == before + a + after &&
             SkippedStructure(doc, p.leaves) == before + b + after
    requires |a| == |b| == 4 && a != b
    requires PassSpec(doc, p, q, out, r)
    ensures r == Failed && out == ""
  {
    hide ScanFrom, Crc, Structure, Ends, Cut;
    BurstDetected(0, before, a, b, after);
  }

  /** Where the leaf after the first `n` ends, or the document does. */
  function NextCut(doc: string, n: nat): nat
    requires n <= |Ends(doc)|
  {
    if n < |Ends(doc)| then Ends(doc)[n] else |doc|
  }

  /** A stretch without a leaf end that does not fit the segment buffer. */
  ghost predicate LongSegment(doc: string) {
    exists a: nat, b: nat :: HasSegment(doc, a, b) && b - a > 512
  }

  ghost predicate HasSegment(doc: string, a: nat, b: nat) {
    a <= b <= |doc| && forall i :: 0 <= i < |Ends(doc)| ==> Ends(doc)[i] <= a || b <= Ends(doc)[i]
  }

  /**
   How many bytes wait to be sent next when `out` was sent from leaf `from` on
   and leaf `m` is not complete: what is left of its segment, or a full buffer
   of 512.
   */
  function Waiting(doc: string, from: nat, m: nat, out: string): int
    requires from <= |Ends(doc)| && m <= |Ends(doc)|
  {
    var left := NextCut(doc, m) - (Cut(doc, from) + |out|);
    if left < 512 then left else 512
  }

  /** The client's connection: arbitrary room, and writes that may take only part of the data. */
  class Client {
    var sent: string
    var writeFailed: bool
    ghost var rooms: seq<nat>  // every answer given

    constructor ()
      ensures sent == "" && !writeFailed && rooms == []
    {
      sent, writeFailed, rooms := "", false, [];
    }

    /** The last answer was less than `waiting` bytes; there was one after the first `before`. */
    ghost predicate TooLittle(before: nat, waiting: int)
      reads `rooms
    {
      before < |rooms| && rooms[|rooms| - 1] < waiting
    }

    method Room() returns (room: nat)
      modifies this`rooms
      ensures rooms == old(rooms) + [room]
    {
      var free: int := *;
      room := if free < 0 then 0 else free;
      rooms := rooms + [room];
    }

    method Write(data: string) returns (ok: bool)
      modifies this`sent, this`writeFailed
      ensures ok ==> sent == old(sent) + data && writeFailed == old(writeFailed)
      ensures !ok ==> writeFailed && old(sent) <= sent <= old(sent) + data
    {
      var taken: int := *;
      ok := taken >= |data|;
      sent := sent + (if ok then data else if taken < 0 then "" else data[..taken]);
      writeFailed := writeFailed || !ok;
    }
  }

  class RestResumeJob {
    var leavesSent: nat
    var structureCrc: bv32

    ghost function State(): Progress
      reads this
    {
      Progress(leavesSent, structureCrc)
    }

    constructor ()
      ensures State() == Progress(0, 0)
    {
      leavesSent, structureCrc := 0, 0;
    }
  }

  /** One regeneration pass. */
  class RestResumeSink {
    const job: RestResumeJob
    const client: Client
    const lexer: JsonLeafLexer
    const segment: array<char>
    var used: nat
    var leafIndex: nat
    var crc: bv32
    var midLeafWritten: bool
    var result: PassResult

    ghost const start: Progress  // the job when the pass began
    ghost const base: string     // bytes sent, and
    ghost const answered: nat    // room answers given, before the pass
    ghost const failedBefore: bool
    ghost var seen: string       // bytes handed to the lexer
    ghost var fed: string        // bytes skipped or put into the segment
    ghost var ends: seq<nat>     // leaf ends handled so far
    ghost var mask: seq<bool>    // structural flags of `fed`
    ghost var finished: bool     // the writer finished the whole document

    ghost predicate Shape()
      reads `used, `mask, `fed, `leafIndex, `ends
    {
      && segment.Length == SEGMENT && used <= SEGMENT
      && |mask| == |fed| && leafIndex == |ends| && Ordered(ends, |fed|)
    }

    /** The CRC check at the resume point succeeded (or there is nothing to check). */
    ghost predicate StartMatches()
      reads `fed, `mask, `ends
      requires |mask| == |fed| && Ordered(ends, |fed|)
    {
      && start.leaves <= |ends|
      && var k := CutAt(ends, start.leaves);
         start.leaves > 0 ==> start.crc == StructureCrc(fed[..k], mask[..k])
    }

    ghost predicate Skipping()
      reads `leafIndex, `used, `midLeafWritten, job, client
    {
      && leafIndex < start.leaves && used == 0 && !midLeafWritten
      && job.State() == start && client.sent == base && |client.rooms| == answered
      && client.writeFailed == failedBefore
    }

    /** The job has recorded the first `m` leaves as sent. */
    ghost predicate Recorded(m: nat)
      reads `fed, `mask, `ends, job
      requires |mask| == |fed| && Ordered(ends, |fed|)
    {
      && StartMatches() && start.leaves <= m <= |ends|
      && job.leavesSent == m
      && (m == start.leaves ==> job.State() == start)
      && var k := CutAt(ends, m); m > start.leaves ==> job.structureCrc == StructureCrc(fed[..k], mask[..k])
    }

    /** Bytes from the resume point on are sent or wait in the segment; the first `m` leaves are sent. */
    ghost predicate Sending(m: nat)
      reads `used, `mask, `fed, `leafIndex, `ends, `midLeafWritten, job, client, segment
      requires Shape()
    {
      && Recorded(m)
      && var from, to := CutAt(ends, start.leaves), CutAt(ends, m);
         && base <= client.sent && client.sent + segment[..used] == base + fed[from..]
         && (!midLeafWritten ==> client.sent == base + fed[from..to])
         && (midLeafWritten ==> |fed| - to > SEGMENT && used > 0)
         && (m == start.leaves && !midLeafWritten ==> |client.rooms| == answered)
         && answered <= |client.rooms| && client.writeFailed == failedBefore
    }

    ghost predicate Running()
      reads this, job, client, lexer, segment
    {
      && result == Complete && seen == fed && !finished
      && Shape() && Fits(lexer.State())
      && ScanText(fed) == Scan(lexer.State(), |fed|, ends, mask)
      && crc == StructureCrc(fed, mask)
      && (Skipping() || Sending(leafIndex))
    }

    /** The whole document has been handled. */
    ghost predicate AtEnd()
      reads this
    {
      finished && fed == seen && ends == Ends(seen)
    }

    /** The segment after the first `m` leaves is complete: a leaf or the document ended here. */
    ghost predicate SegmentComplete(m: nat)
      reads this
    {
      || (|ends| == m + 1 && ends[m] == |fed|)
      || (|ends| == m && AtEnd())
    }

    /** The segment after the first `m` leaves does not fit the buffer. */
    ghost predicate SegmentTooLong(m: nat)
      reads this
      requires m <= |ends|
    {
      var to := CutAt(ends, m);
      || (SegmentComplete(m) && |fed| - to > SEGMENT)
      || (&& |ends| == m && |fed| < |seen| && |fed| + 1 - to > SEGMENT
          && forall i :: m <= i < |ScanText(seen).ends| ==> |fed| < ScanText(seen).ends[i])
    }

    /** What waits is a full buffer or the end of a segment, and there was no room for it. */
    ghost predicate PieceRefused()
      reads this, job, client, segment
      requires |mask| == |fed| && Ordered(ends, |fed|) && start.leaves <= |ends|
    {
      && used <= segment.Length == SEGMENT && client.TooLittle(answered, used)
      && (used == SEGMENT || SegmentComplete(job.leavesSent))
      && client.sent + segment[..used] == base + fed[CutAt(ends, start.leaves)..]
    }

    /** The pass has stopped early. */
    ghost predicate Halted()
      reads this, job, client, segment
    {
      && |mask| == |fed| && Ordered(ends, |fed|)
      && match result
         case Complete => false
         case Paused =>
           && Recorded(job.leavesSent) && SegmentComplete(job.leavesSent)
           && var from, to := CutAt(ends, start.leaves), CutAt(ends, job.leavesSent);
              && from <= to && client.sent == base + fed[from..to]
              && |fed| - to <= SEGMENT && client.TooLittle(answered, |fed| - to)
              && (job.leavesSent == start.leaves ==> |client.rooms| == answered + 1)
         case Failed =>
           if StartMatches() then
             && base <= client.sent <= base + fed[CutAt(ends, start.leaves)..]
             && (!client.writeFailed ==> job.leavesSent <= |ends| && SegmentTooLong(job.leavesSent) && PieceRefused())
           else client.sent == base && (start.leaves <= |ends| || AtEnd())
    }

    constructor (job: RestResumeJob, client: Client)
      ensures this.job == job && this.client == client && fresh(lexer) && fresh(segment)
      ensures start == job.State() && base == client.sent && answered == |client.rooms|
      ensures failedBefore == client.writeFailed
      ensures Running() && seen == ""
    {
      this.job, this.client := job, client;
      lexer := new JsonLeafLexer();
      segment := new char[SEGMENT](_ => ' ');
      used, leafIndex, crc, midLeafWritten, result := 0, 0, 0, false, Complete;
      start, base, answered := Progress(job.leavesSent, job.structureCrc), client.sent, |client.rooms|;
      failedBefore := client.writeFailed;
      seen, fed, ends, mask, finished := "", "", [], [], false;
    }

    /** Sends the complete segment if it fits. */
    method Commit(ghost m: nat) returns (ok: bool)
      requires result == Complete && Shape() && Sending(m) && SegmentComplete(m)
      modifies client, this`used, this`midLeafWritten, this`result
      ensures ok ==> result == Complete && used == 0 && !midLeafWritten
      ensures ok ==> client.sent == base + fed[CutAt(ends, start.leaves)..] && client.writeFailed == failedBefore
      ensures ok ==> answered <= |client.rooms|
      ensures !ok ==> result != Complete && Halted()
    {
      hide StructureCrc, ScanFrom;
      ghost var from, to := CutAt(ends, start.leaves), CutAt(ends, m);
      CutsOrdered(ends, |fed|, start.leaves, m);
      if used == 0 {
        midLeafWritten := false;
        assert client.sent + segment[..used] == client.sent;
        return true;
      }
      if !midLeafWritten { WaitingPart(client.sent, segment[..used], base, fed, from, to); }
      var room := client.Room();
      if room < used {
        result := if midLeafWritten then Failed else Paused;
        return false;
      }
      ghost var all := base + fed[from..];
      assert client.sent + segment[..used] == all;
      var written := client.Write(segment[..used]);
      if !written {
        result := Failed;
        return false;
      }
      used, midLeafWritten := 0, false;
      return true;
    }

    /** A leaf ended after `fed`. */
    method Boundary() returns (ok: bool)
      requires result == Complete && Shape() && crc == StructureCrc(fed, mask)
      requires Skipping() || Sending(leafIndex)
      modifies client, job, this`used, this`midLeafWritten, this`result, this`leafIndex, this`ends
      ensures ends == old(ends) + [|fed|]
      ensures ok ==> result == Complete && Shape() && (Skipping() || Sending(leafIndex))
      ensures !ok ==> result != Complete && Halted()
    {
      hide StructureCrc, ScanFrom;
      ghost var m := leafIndex;
      leafIndex := leafIndex + 1;
      ends := ends + [|fed|];
      CutsExtend(old(ends), |fed|);
      assert fed[..|fed|] == fed && mask[..|fed|] == mask;
      if leafIndex == job.leavesSent {
        if crc != job.structureCrc {
          result := Failed;
          return false;
        }
        return true;
      }
      if leafIndex < job.leavesSent { return true; }
      ok := Commit(m);
      if !ok { return; }
      job.leavesSent := leafIndex;
      job.structureCrc := crc;
    }

    /** A single leaf larger than the segment: sends the full buffer, or gives up. */
    method SendPiece() returns (ok: bool)
      requires result == Complete && Shape() && Sending(leafIndex) && used == SEGMENT && |fed| < |seen|
      requires forall i :: |ends| <= i < |ScanText(seen).ends| ==> |fed| < ScanText(seen).ends[i]
      modifies client, this`used, this`midLeafWritten, this`result
      ensures ok ==> result == Complete && midLeafWritten && used == 0
      ensures ok ==> client.sent == base + fed[CutAt(ends, start.leaves)..] && client.writeFailed == failedBefore
      ensures ok ==> answered <= |client.rooms|
      ensures ok ==> |fed| + 1 - CutAt(ends, leafIndex) > SEGMENT
      ensures !ok ==> result != Complete && Halted()
    {
      hide StructureCrc, ScanFrom;
      ghost var from, to := CutAt(ends, start.leaves), CutAt(ends, leafIndex);
      CutsOrdered(ends, |fed|, start.leaves, leafIndex);
      if !midLeafWritten { WaitingPart(client.sent, segment[..used], base, fed, from, to); }
      ghost var all := base + fed[from..];
      assert client.sent + segment[..used] == all;
      var room := client.Room();
      var written := false;
      if used <= room { written := client.Write(segment[..used]); }
      if !written {
        result := Failed;
        return false;
      }
      midLeafWritten, used := true, 0;
      return true;
    }

    /** Puts one byte into the segment. */
    method Put(c: char, ghost structural: bool)
      requires Shape() && Recorded(leafIndex) && used < SEGMENT && base <= client.sent
      requires client.sent + segment[..used] == base + fed[CutAt(ends, start.leaves)..]
      modifies segment, this`used, this`fed, this`mask
      ensures Shape() && Recorded(leafIndex) && used == old(used) + 1
      ensures client.sent + segment[..used] == base + fed[CutAt(ends, start.leaves)..]
      ensures fed == old(fed) + [c] && mask == old(mask) + [structural]
    {
      hide StructureCrc, ScanFrom;
      ghost var from, to := CutAt(ends, start.leaves), CutAt(ends, leafIndex);
      CutsOrdered(ends, |fed|, start.leaves, leafIndex);
      ghost var waiting := segment[..used];
      segment[used] := c;
      used := used + 1;
      assert segment[..used] == waiting + [c];
      fed, mask := fed + [c], mask + [structural];
      SamePrefixes(old(fed), old(mask), c, structural, from);
      SamePrefixes(old(fed), old(mask), c, structural, to);
      calc {
        client.sent + segment[..used];
        (client.sent + waiting) + [c];
        base + old(fed)[from..] + [c];
        { assert fed[from..] == old(fed)[from..] + [c]; }
        base + fed[from..];
      }
    }

    method Append(c: char, ghost structural: bool) returns (ok: bool)
      requires result == Complete && Shape() && Sending(leafIndex) && |fed| < |seen|
      requires forall i :: |ends| <= i < |ScanText(seen).ends| ==> |fed| < ScanText(seen).ends[i]
      modifies client, segment, this`used, this`midLeafWritten, this`result, this`fed, this`mask
      ensures ok ==> result == Complete && Shape() && Sending(leafIndex)
      ensures ok ==> fed == old(fed) + [c] && mask == old(mask) + [structural]
      ensures !ok ==> Halted() && fed == old(fed) && mask == old(mask)
    {
      hide StructureCrc, ScanFrom;
      ok := true;
      if used == segment.Length {
        ok := SendPiece();
        if !ok { return; }
        assert client.sent + segment[..used] == client.sent;
      }
      ghost var from, to := CutAt(ends, start.leaves), CutAt(ends, leafIndex);
      CutsOrdered(ends, |fed|, start.leaves, leafIndex);
      Put(c, structural);
      SameSlice(old(fed), c, from, to);
    }

    /** What was handled is part of what the lexer reports about `seen`. */
    ghost predicate Partial()
      reads this
    {
      && fed <= seen && mask <= ScanText(seen).mask
      && ends <= (if finished then Ends(seen) else ScanText(seen).ends)
    }

    /** Skips or collects one byte and updates the structure CRC. */
    method Take(c: char, structural: bool) returns (ok: bool)
      requires result == Complete && Shape() && crc == StructureCrc(fed, mask) && |fed| < |seen|
      requires Skipping() || Sending(leafIndex)
      requires forall i :: |ends| <= i < |ScanText(seen).ends| ==> |fed| < ScanText(seen).ends[i]
      modifies client, segment, this`used, this`midLeafWritten, this`result, this`fed, this`mask, this`crc
      ensures ok ==> result == Complete && Shape() && crc == StructureCrc(fed, mask)
      ensures ok ==> fed == old(fed) + [c] && mask == old(mask) + [structural] && (Skipping() || Sending(leafIndex))
      ensures !ok ==> Halted() && fed == old(fed) && mask == old(mask)
    {
      hide StructureCrc, ScanFrom, Update, Halted;
      StructureNext(fed, mask, c, structural);
      if leafIndex >= job.leavesSent {
        ok := Append(c, structural);
        if !ok { return; }
      } else {
        fed, mask := fed + [c], mask + [structural];
      }
      if structural { crc := UpdateLoop(crc, ByteOf(c)); }
      ok := true;
    }

    method FeedByte(c: char) returns (ok: bool)
      requires Running()
      modifies this, job, client, lexer, segment
      ensures seen == old(seen) + [c] && !finished
      ensures ok ==> Running()
      ensures !ok ==> Halted() && Partial()
    {
      hide StructureCrc, ScanFrom, Feed, Halted, Shape, Skipping, Sending;
      ghost var scan := ScanText(fed);
      var step := lexer.FeedByte(c);
      seen := seen + [c];
      ScanNext(fed, c);
      ghost var after := ScanText(seen);
      assert after == ScanByte(scan, c);
      if step.leafEndsBefore {
        ok := Boundary();
        if !ok { return; }
      }
      ok := Take(c, step.structural);
      if ok && step.leafEndsAfter { ok := Boundary(); }
    }

    /** The writer's callback: hands over one piece of the document. */
    method Write(data: string) returns (ok: bool)
      requires Running()
      modifies this, job, client, lexer, segment
      ensures ok ==> Running() && seen == old(seen) + data
      ensures !ok ==> Halted() && Partial() && !finished && seen <= old(seen) + data
    {
      hide Running, Halted, Partial;
      ok := true;
      for i := 0 to |data|
        invariant ok && Running() && seen == old(seen) + data[..i]
      {
        ok := FeedByte(data[i]);
        assert old(seen) + data[..i] + [data[i]] == old(seen) + data[..i + 1] <= old(seen) + data;
        if !ok { return; }
      }
    }

    /** Everything was sent. */
    ghost predicate Finished()
      reads this, job, client
    {
      && |mask| == |fed| && Ordered(ends, |fed|) && StartMatches()
      && client.sent == base + fed[CutAt(ends, start.leaves)..]
    }

    /** Called once the writer has produced the whole document. */
    method Finish() returns (r: PassResult)
      requires Running()
      modifies this, job, client, lexer, segment
      ensures seen == old(seen) && finished && Partial()
      ensures r == Complete ==> Finished() && fed == seen
      ensures r != Complete ==> result == r && Halted()
    {
      hide StructureCrc, ScanFrom, Halted, Ordered;
      var ended := lexer.FinishLeaf();
      finished := true;
      ScanTextKeeps(seen);
      EndsOrdered(seen);
      if ended {
        var ok := Boundary();
        if !ok { return result; }
      }
      assert Partial() && AtEnd();
      if leafIndex < job.leavesSent {
        result := Failed;
        TooShort();
        return Failed;
      }
      var ok := Commit(leafIndex);
      if !ok { return result; }
      return Complete;
    }

    lemma HaltedResult()
      requires Halted()
      ensures result != Complete
    {}

    lemma TooShort()
      requires result == Failed && Shape() && Skipping() && AtEnd()
      ensures Halted()
    {}

    /** `doc` is what the writer produces; the pass saw `seen` of it. */
    ghost predicate PartOf(doc: string)
      reads this
    {
      Partial() && seen <= doc && (finished ==> seen == doc)
    }

    lemma PartAgrees(doc: string, n: nat)
      requires PartOf(doc) && |mask| == |fed| && Ordered(ends, |fed|) && n <= |ends|
      ensures ends <= Ends(doc)
      ensures CutAt(ends, n) == Cut(doc, n) <= |fed| && fed <= doc
      ensures StructureCrc(fed[..CutAt(ends, n)], mask[..CutAt(ends, n)]) == CrcAt(doc, n)
    {
      hide ScanFrom, StructureCrc, Ordered;
      assert doc == seen + doc[|seen|..];
      LaterEnds(seen, doc[|seen|..]);
      EndsOrdered(doc);
      PrefixAgrees(doc, fed, ends, mask, n);
    }

    lemma ResumesIffMatches(doc: string)
      requires PartOf(doc) && |mask| == |fed| && Ordered(ends, |fed|) && start.leaves <= |ends|
      ensures Resumes(doc, start) <==> StartMatches()
    {
      hide ScanFrom, StructureCrc, Ordered;
      PartAgrees(doc, start.leaves);
    }

    lemma CompletePass(doc: string)
      requires Finished() && PartOf(doc) && fed == doc
      ensures base <= client.sent
      ensures PassSpec(doc, start, job.State(), client.sent[|base|..], Complete)
    {
      hide ScanFrom, StructureCrc, Ordered;
      PartAgrees(doc, start.leaves);
      ResumesIffMatches(doc);
    }

    lemma PausedPass(doc: string)
      requires Halted() && PartOf(doc) && result == Paused
      ensures base <= client.sent
      ensures PassSpec(doc, start, job.State(), client.sent[|base|..], Paused)
      ensures job.leavesSent <= |Ends(doc)|
      ensures var waiting := NextCut(doc, job.leavesSent) - Cut(doc, job.leavesSent);
              0 <= waiting <= SEGMENT && client.TooLittle(answered, waiting)
      ensures job.leavesSent == start.leaves ==> |client.rooms| == answered + 1
    {
      hide ScanFrom, StructureCrc, Ordered;
      var m := job.leavesSent;
      PartAgrees(doc, start.leaves);
      PartAgrees(doc, m);
      ResumesIffMatches(doc);
      var from, to := Cut(doc, start.leaves), Cut(doc, m);
      assert fed[from..to] == doc[from..to];
    }

    lemma FailedPass(doc: string)
      requires Halted() && PartOf(doc) && result == Failed
      ensures base <= client.sent
      ensures PassSpec(doc, start, job.State(), client.sent[|base|..], Failed)
      ensures Resumes(doc, start) && !client.writeFailed ==>
                && LongSegment(doc) && job.leavesSent <= |Ends(doc)|
                && client.TooLittle(answered, Waiting(doc, start.leaves, job.leavesSent, client.sent[|base|..]))
    {
      hide ScanFrom, StructureCrc, Ordered;
      if start.leaves > |ends| {
        assert doc == seen && doc[..|doc|] == doc;
        EndsOrdered(doc);
      } else {
        PartAgrees(doc, start.leaves);
        ResumesIffMatches(doc);
        if StartMatches() {
          PrefixPart(client.sent, base, fed, doc, Cut(doc, start.leaves));
          if !client.writeFailed { RefusedPass(doc); }
        }
      }
    }

    lemma RefusedPass(doc: string)
      requires PartOf(doc) && |mask| == |fed| && Ordered(ends, |fed|) && start.leaves <= |ends| && base <= client.sent
      requires job.leavesSent <= |ends| && SegmentTooLong(job.leavesSent) && PieceRefused()
      ensures LongSegment(doc) && start.leaves <= |Ends(doc)| && job.leavesSent <= |Ends(doc)|
      ensures client.TooLittle(answered, Waiting(doc, start.leaves, job.leavesSent, client.sent[|base|..]))
    {
      hide ScanFrom, Ordered, Ends, LongSegment, PartOf, SegmentTooLong, NextCut, Cut;
      PartAgrees(doc, start.leaves);
      LongSegmentFound(doc);
      WaitingPiece(client.sent, segment[..used], base, fed[Cut(doc, start.leaves)..]);
    }

    lemma LongSegmentFound(doc: string)
      requires PartOf(doc) && |mask| == |fed| && Ordered(ends, |fed|)
      requires job.leavesSent <= |ends| && SegmentTooLong(job.leavesSent)
      ensures LongSegment(doc) && job.leavesSent <= |Ends(doc)|
      ensures NextCut(doc, job.leavesSent) >= |fed|
      ensures SegmentComplete(job.leavesSent) ==> NextCut(doc, job.leavesSent) == |fed|
    {
      hide ScanFrom;
      var m := job.leavesSent;
      PartAgrees(doc, m);
      EndsOrdered(doc);
      LaterEnds(seen, doc[|seen|..]);
      assert doc == seen + doc[|seen|..];
      var a := CutAt(ends, m);
      var b := if SegmentComplete(m) && |fed| - a > SEGMENT then |fed| else |fed| + 1;
      forall i | 0 <= i < |Ends(doc)|
        ensures if i < m then Ends(doc)[i] <= a else b <= Ends(doc)[i]
      {
        if i < m {
          CutsOrdered(Ends(doc), |doc|, i + 1, m);
        } else if b == |fed| {
          CutsOrdered(Ends(doc), |doc|, m + 1, i + 1);
        } else {
          assert |fed| < |seen| <= |doc|;
          assert i < |ScanText(doc).ends| || Ends(doc)[i] == |doc| by { ScanTextKeeps(doc); }
        }
      }
      assert HasSegment(doc, a, b);
    }
  }

  lemma WaitingPiece(sent: string, waiting: string, base: string, rest: string)
    requires base <= sent && sent + waiting == base + rest
    ensures |waiting| == |rest| - |sent[|base|..]|
  {
    assert |sent + waiting| == |base + rest|;
  }

  lemma PrefixPart(sent: string, base: string, fed: string, doc: string, from: nat)
    requires from <= |fed| && fed <= doc && base <= sent <= base + fed[from..]
    ensures sent[|base|..] <= doc[from..]
  {
    assert (base + fed[from..])[|base|..] == fed[from..];
    assert sent[|base|..] <= fed[from..] <= doc[from..];
  }

  lemma ScanNext(text: string, c: char)
    ensures ScanText(text + [c]) == ScanByte(ScanText(text), c)
  {
    hide ScanByte;
    assert (text + [c])[..|text|] == text;
  }

  lemma StructureNext(text: string, mask: seq<bool>, c: char, structural: bool)
    requires |text| == |mask|
    ensures StructureCrc(text + [c], mask + [structural]) ==
            if structural then Update(StructureCrc(text, mask), ByteOf(c)) else StructureCrc(text, mask)
  {
    hide Update, ByteOf;
    var n := |text|;
    assert (text + [c])[..n] == text && (mask + [structural])[..n] == mask;
    var s := Structure(text, mask);
    if structural {
      assert Structure(text + [c], mask + [structural]) == s + [ByteOf(c)];
      assert (s + [ByteOf(c)])[..|s|] == s;
    } else {
      assert s + [] == s;
    }
  }

  lemma CutsExtend(ends: seq<nat>, limit: nat)
    requires Ordered(ends, limit)
    ensures Ordered(ends + [limit], limit)
    ensures forall k :: 0 <= k <= |ends| ==> CutAt(ends + [limit], k) == CutAt(ends, k)
    ensures CutAt(ends + [limit], |ends| + 1) == limit
  {}

  lemma SamePrefixes(text: string, mask: seq<bool>, c: char, b: bool, k: nat)
    requires k <= |text| == |mask|
    ensures (text + [c])[..k] == text[..k] && (mask + [b])[..k] == mask[..k]
  {}

  lemma SameSlice(text: string, c: char, from: nat, to: nat)
    requires from <= to <= |text|
    ensures (text + [c])[from..to] == text[from..to]
  {}

  // ----- A pass over the pieces a writer produces -----

  function Concat(pieces: seq<string>): string {
    if pieces == [] then "" else Concat(pieces[..|pieces| - 1]) + pieces[|pieces| - 1]
  }

  lemma {:induction false} ConcatPrefix(pieces: seq<string>, n: nat)
    requires n <= |pieces|
    ensures Concat(pieces[..n]) <= Concat(pieces)
  {
    if n == |pieces| {
      assert pieces[..n] == pieces;
    } else {
      var k := |pieces| - 1;
      ConcatPrefix(pieces[..k], n);
      assert pieces[..k][..n] == pieces[..n];
    }
  }

  /**
   One regeneration of the response. Whatever room the client reports and
   whatever its writes take, the pass meets `PassSpec`. It pauses only because
   there was no room for the next segment. It fails on a matching document only
   if a write failed, or a leaf segment is longer than the buffer and there was
   no room for a piece of it. With room for 512 bytes whenever it asks, it
   completes.
   */
  method RunPass(job: RestResumeJob, client: Client, pieces: seq<string>) returns (r: PassResult)
    modifies job, client
    ensures old(client.sent) <= client.sent
    ensures PassSpec(Concat(pieces), old(job.State()), job.State(), client.sent[|old(client.sent)|..], r)
    ensures r == Paused ==> job.leavesSent <= |Ends(Concat(pieces))|
    ensures r == Paused ==>
              client.TooLittle(|old(client.rooms)|,
                               NextCut(Concat(pieces), job.leavesSent) - Cut(Concat(pieces), job.leavesSent))
    ensures r == Paused && job.leavesSent == old(job.leavesSent) ==> |client.rooms| == |old(client.rooms)| + 1
    ensures r == Failed && Resumes(Concat(pieces), old(job.State())) && !client.writeFailed ==>
              && LongSegment(Concat(pieces)) && job.leavesSent <= |Ends(Concat(pieces))|
              && client.TooLittle(|old(client.rooms)|, Waiting(Concat(pieces), old(job.leavesSent), job.leavesSent,
                                                               client.sent[|old(client.sent)|..]))
    ensures && Resumes(Concat(pieces), old(job.State())) && !client.writeFailed
            && (forall i :: |old(client.rooms)| <= i < |client.rooms| ==> client.rooms[i] >= 512) ==>
              r == Complete
  {
    hide PassSpec, Resumes, LongSegment, RestResumeSink.Halted, RestResumeSink.Running, ScanFrom;
    ghost var doc := Concat(pieces);
    var sink := new RestResumeSink(job, client);
    var ok := true;
    assert pieces[..0] == [];
    for i := 0 to |pieces|
      invariant sink.Running() && sink.seen == Concat(pieces[..i])
      invariant fresh(sink) && fresh(sink.lexer) && fresh(sink.segment)
    {
      ok := sink.Write(pieces[i]);
      assert pieces[..i + 1][..i] == pieces[..i];
      ConcatPrefix(pieces, i + 1);
      if !ok {
        r := sink.result;
        sink.HaltedResult();
        if r == Paused { sink.PausedPass(doc); } else { sink.FailedPass(doc); }
        return;
      }
    }
    assert pieces[..|pieces|] == pieces;
    r := sink.Finish();
    if r == Complete { sink.CompletePass(doc); }
    else if r == Paused { sink.PausedPass(doc); }
    else { sink.FailedPass(doc); }
  }
}
