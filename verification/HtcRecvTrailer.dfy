/** Trailers of received messages: records that report credits and announce messages. */
module HtcRecvTrailer {
  import opened SeqFacts
  import opened HtcSendSpec

  const RECORD_CREDITS := 1
  const RECORD_LOOKAHEAD := 2
  const RECORD_LOOKAHEAD_BUNDLE := 3
  const HOST_MAX_MSG_PER_BUNDLE: nat := 8

  /** A guarded look-ahead record reads this many bytes whatever its length says. */
  const LOOKAHEAD_BYTES: nat := 6

  type Byte = x: int | 0 <= x < 256

  /** The first four bytes of a message that waits in the target. */
  type Word = seq<Byte>

  /** Whether the trailer is accepted, the credit reports in it, and the look-aheads the
      caller is left with. */
  datatype Outcome = Outcome(ok: bool, reports: seq<seq<Report>>, looks: seq<Word>)

  /** The two-byte entries of a credit report; an odd last byte is ignored. */
  function Entries(body: seq<Byte>): (r: seq<Report>)
    ensures |r| == |body| / 2
  {
    if |body| < 2 then [] else [Report(body[0], body[1])] + Entries(body[2..])
  }

  /** The whole four-byte words of a bundle report. */
  function Words(body: seq<Byte>): (r: seq<Word>)
    ensures |r| == |body| / 4
  {
    if |body| < 4 then [] else [body[..4]] + Words(body[4..])
  }

  predicate Guarded(pre: Byte, post: Byte) { pre == 255 - post }

  /** Parses `length` bytes at the front of `mem`; `wants` says whether the caller supplied
      room for look-aheads and `looks` are those it has so far. */
  function Parse(mem: seq<Byte>, length: nat, wants: bool, looks: seq<Word>): Outcome
    requires length + LOOKAHEAD_BYTES <= |mem|
    decreases length
  {
    if length == 0 then Outcome(true, [], looks)
    else if length < 2 || mem[1] > length - 2 then Outcome(false, [], looks)
    else
      var id, n := mem[0], mem[1];
      var body, rest, left := mem[2..2 + n], mem[2 + n..], length - 2 - n;
      if id == RECORD_CREDITS then
        var more := Parse(rest, left, wants, looks);
        more.(reports := [Entries(body)] + more.reports)
      else if id == RECORD_LOOKAHEAD && wants && Guarded(mem[2], mem[7]) then Parse(rest, left, wants, [mem[3..7]])
      else if id == RECORD_LOOKAHEAD_BUNDLE && wants && n >= 4 then
        if n / 4 > HOST_MAX_MSG_PER_BUNDLE then Outcome(false, [], looks)
        else Parse(rest, left, wants, Words(body))
      else Parse(rest, left, wants, looks)
  }

  // --- which byte strings are accepted ----------------------------------------------------

  /** A record as it travels: an id, a length byte, and that many bytes. */
  datatype Frame = Frame(id: Byte, body: seq<Byte>) {
    predicate Valid() { |body| < 256 }
  }

  function Bytes(frames: seq<Frame>): (r: seq<Byte>)
    requires forall f :: f in frames ==> f.Valid()
  {
    if frames == [] then []
    else
      assert frames[0].Valid();
      var header: seq<Byte> := [frames[0].id, |frames[0].body|];
      header + frames[0].body + Bytes(frames[1..])
  }

  ghost predicate Framing(frames: seq<Frame>, trailer: seq<Byte>) {
    (forall f :: f in frames ==> f.Valid()) && Bytes(frames) == trailer
  }

  predicate Overlong(f: Frame) {
    f.id == RECORD_LOOKAHEAD_BUNDLE && |f.body| / 4 > HOST_MAX_MSG_PER_BUNDLE
  }

  lemma FramingCons(mem: seq<Byte>, length: nat, frames: seq<Frame>)
    requires 2 <= length <= |mem| && mem[1] <= length - 2
    requires var n := mem[1]; Framing(frames, mem[2 + n..][..length - 2 - n])
    ensures Framing([Frame(mem[0], mem[2..2 + mem[1]])] + frames, mem[..length])
  {
    var n := mem[1];
    var all := [Frame(mem[0], mem[2..2 + n])] + frames;
    assert all[1..] == frames;
    assert mem[..length] == [mem[0], mem[1]] + mem[2..2 + n] + mem[2 + n..][..length - 2 - n];
  }

  lemma FramingSplit(mem: seq<Byte>, length: nat, frames: seq<Frame>)
    requires length <= |mem| && 0 < length && Framing(frames, mem[..length])
    ensures frames != [] && 2 <= length && mem[1] <= length - 2
    ensures frames[0] == Frame(mem[0], mem[2..2 + mem[1]])
    ensures Framing(frames[1..], mem[2 + mem[1]..][..length - 2 - mem[1]])
  {
    var f, rest, t := frames[0], Bytes(frames[1..]), mem[..length];
    assert t == [f.id, |f.body|] + f.body + rest;
    assert mem[0] == t[0] && mem[1] == t[1] == |f.body|;
    assert t[2..2 + |f.body|] == f.body && t[2 + |f.body|..] == rest;
    assert mem[2..2 + |f.body|] == t[2..2 + |f.body|];
    assert mem[2 + |f.body|..][..length - 2 - |f.body|] == t[2 + |f.body|..];
  }

  /** A trailer is refused exactly when it is not a string of whole records, or look-aheads
      are wanted and a bundle report announces more than eight messages. */
  lemma {:induction false} AcceptedIff(mem: seq<Byte>, length: nat, wants: bool, looks: seq<Word>)
    requires length + LOOKAHEAD_BYTES <= |mem|
    ensures Parse(mem, length, wants, looks).ok
       <==> exists frames :: Framing(frames, mem[..length]) && (wants ==> forall f :: f in frames ==> !Overlong(f))
    decreases length
  {
    if length == 0 {
      assert Framing([], mem[..length]);
    } else if 2 <= length && mem[1] <= length - 2 {
      var n := mem[1];
      var rest, left := mem[2 + n..], length - 2 - n;
      forall looks1 {
        AcceptedIff(rest, left, wants, looks1);
      }
      AcceptedStep(mem, length, wants);
    } else {
      forall frames | Framing(frames, mem[..length])
        ensures false
      {
        FramingSplit(mem, length, frames);
      }
    }
  }

  ghost predicate Acceptable(mem: seq<Byte>, length: nat, wants: bool)
    requires length <= |mem|
  {
    exists frames :: Framing(frames, mem[..length]) && (wants ==> forall f :: f in frames ==> !Overlong(f))
  }

  lemma AcceptedStep(mem: seq<Byte>, length: nat, wants: bool)
    requires 2 <= length <= |mem| && mem[1] <= length - 2
    ensures var n := mem[1];
      Acceptable(mem, length, wants) <==>
        (Acceptable(mem[2 + n..], length - 2 - n, wants) && (wants ==> !Overlong(Frame(mem[0], mem[2..2 + n]))))
  {
    var n := mem[1];
    var first, rest, left := Frame(mem[0], mem[2..2 + n]), mem[2 + n..], length - 2 - n;
    if Acceptable(mem, length, wants) {
      var frames :| Framing(frames, mem[..length]) && (wants ==> forall f :: f in frames ==> !Overlong(f));
      FramingSplit(mem, length, frames);
    }
    if Acceptable(rest, left, wants) && (wants ==> !Overlong(first)) {
      var frames :| Framing(frames, rest[..left]) && (wants ==> forall f :: f in frames ==> !Overlong(f));
      FramingCons(mem, length, frames);
      assert forall f :: f in [first] + frames ==> f == first || f in frames;
    }
  }

  // --- what an accepted trailer leaves ----------------------------------------------------

  lemma {:induction false} EntryAt(body: seq<Byte>, j: nat)
    requires j < |body| / 2
    ensures Entries(body)[j] == Report(body[2 * j], body[2 * j + 1])
  {
    if j > 0 {
      EntryAt(body[2..], j - 1);
      assert Entries(body)[j] == Entries(body[2..])[j - 1];
    }
  }

  /** Every two bytes are a report. */
  function ReportsIn(body: seq<Byte>): (r: seq<Report>)
    ensures |r| == |body| / 2 && forall j :: 0 <= j < |r| ==> r[j] == Report(body[2 * j], body[2 * j + 1])
  {
    seq(|body| / 2, j requires 0 <= j < |body| / 2 => Report(body[2 * j], body[2 * j + 1]))
  }

  lemma EntriesAre(body: seq<Byte>)
    ensures Entries(body) == ReportsIn(body)
  {
    forall j: nat | j < |body| / 2
      ensures Entries(body)[j] == ReportsIn(body)[j]
    {
      EntryAt(body, j);
    }
  }

  lemma {:induction false} WordAt(body: seq<Byte>, j: nat)
    requires j < |body| / 4
    ensures Words(body)[j] == body[4 * j..4 * j + 4]
  {
    if j > 0 {
      WordAt(body[4..], j - 1);
      assert Words(body)[j] == Words(body[4..])[j - 1];
      assert body[4..][4 * (j - 1)..4 * (j - 1) + 4] == body[4 * j..4 * j + 4];
    }
  }

  /** Every four bytes are a word. */
  function WordsIn(body: seq<Byte>): (r: seq<Word>)
    ensures |r| == |body| / 4 && forall j :: 0 <= j < |r| ==> r[j] == body[4 * j..4 * j + 4]
  {
    seq(|body| / 4, j requires 0 <= j < |body| / 4 => body[4 * j..4 * j + 4])
  }

  lemma WordsAre(body: seq<Byte>)
    ensures Words(body) == WordsIn(body)
  {
    forall j: nat | j < |body| / 4
      ensures Words(body)[j] == WordsIn(body)[j]
    {
      WordAt(body, j);
    }
  }

  /** The two-byte reports in the frames that report credits, frame by frame. */
  function CreditFrames(frames: seq<Frame>): seq<seq<Report>>
  {
    if frames == [] then []
    else (if frames[0].id == 1 then [ReportsIn(frames[0].body)] else []) + CreditFrames(frames[1..])
  }

  /** The bytes from frame `i` on. A guarded look-ahead is read from them whatever the length of
      its frame. */
  function From(frames: seq<Frame>, tail: seq<Byte>, i: nat): (r: seq<Byte>)
    requires i < |frames| && LOOKAHEAD_BYTES <= |tail| && forall f :: f in frames ==> f.Valid()
    ensures 8 <= |r|
  {
    Bytes(frames[i..]) + tail
  }

  /** Frame `i` announces something: a look-ahead whose guards complement each other, or a bundle
      report that holds a word. */
  predicate Announces(frames: seq<Frame>, tail: seq<Byte>, i: nat)
    requires i < |frames| && LOOKAHEAD_BYTES <= |tail| && forall f :: f in frames ==> f.Valid()
  {
    var bytes := From(frames, tail, i);
    (frames[i].id == 2 && bytes[2] == 255 - bytes[7]) || (frames[i].id == 3 && 4 <= |frames[i].body|)
  }

  function Announced(frames: seq<Frame>, tail: seq<Byte>, i: nat): seq<Word>
    requires i < |frames| && LOOKAHEAD_BYTES <= |tail| && forall f :: f in frames ==> f.Valid()
  {
    if frames[i].id == 2 then [From(frames, tail, i)[3..7]] else WordsIn(frames[i].body)
  }

  /** No frame from `i` on announces anything. */
  ghost predicate Silent(frames: seq<Frame>, tail: seq<Byte>, i: nat)
    requires LOOKAHEAD_BYTES <= |tail| && forall f :: f in frames ==> f.Valid()
  {
    forall j :: i <= j < |frames| ==> !Announces(frames, tail, j)
  }

  /** `looks` are the look-aheads of the last frame that announces something, and those there were
      before if none does. */
  ghost predicate AreLeft(frames: seq<Frame>, tail: seq<Byte>, before: seq<Word>, looks: seq<Word>)
    requires LOOKAHEAD_BYTES <= |tail| && forall f :: f in frames ==> f.Valid()
  {
    || (looks == before && Silent(frames, tail, 0))
    || (exists i: nat :: i < |frames| && Announces(frames, tail, i) && looks == Announced(frames, tail, i)
          && Silent(frames, tail, i + 1))
  }

  lemma FromTail(frames: seq<Frame>, tail: seq<Byte>, i: nat)
    requires i + 1 < |frames| && LOOKAHEAD_BYTES <= |tail| && forall f :: f in frames ==> f.Valid()
    ensures From(frames, tail, i + 1) == From(frames[1..], tail, i) && frames[i + 1] == frames[1..][i]
    ensures Announces(frames, tail, i + 1) <==> Announces(frames[1..], tail, i)
    ensures Announced(frames, tail, i + 1) == Announced(frames[1..], tail, i)
  {
    assert frames[i + 1..] == frames[1..][i..];
  }

  lemma SilentBehind(frames: seq<Frame>, tail: seq<Byte>, i: nat)
    requires frames != [] && LOOKAHEAD_BYTES <= |tail| && forall f :: f in frames ==> f.Valid()
    requires Silent(frames[1..], tail, i)
    ensures Silent(frames, tail, i + 1)
  {
    forall j | i + 1 <= j < |frames|
      ensures !Announces(frames, tail, j)
    {
      FromTail(frames, tail, j - 1);
    }
  }

  /** One frame in front. */
  lemma LeftStep(frames: seq<Frame>, tail: seq<Byte>, before: seq<Word>, looks: seq<Word>)
    requires frames != [] && LOOKAHEAD_BYTES <= |tail| && forall f :: f in frames ==> f.Valid()
    requires AreLeft(frames[1..], tail,
      if Announces(frames, tail, 0) then Announced(frames, tail, 0) else before, looks)
    ensures AreLeft(frames, tail, before, looks)
  {
    if Silent(frames[1..], tail, 0) {
      SilentBehind(frames, tail, 0);
    } else {
      var i: nat :| i < |frames[1..]| && Announces(frames[1..], tail, i) && looks == Announced(frames[1..], tail, i)
        && Silent(frames[1..], tail, i + 1);
      FromTail(frames, tail, i);
      SilentBehind(frames, tail, i + 1);
    }
  }

  /** A frame in front of other bytes. */
  function Framed(f: Frame, rest: seq<Byte>): (r: seq<Byte>)
    requires f.Valid()
    ensures |r| == 2 + |f.body| + |rest|
  {
    [f.id, |f.body|] + f.body + rest
  }

  /** The credit report of a frame, if it is one. */
  function ReportOf(f: Frame): seq<seq<Report>>
  {
    if f.id == RECORD_CREDITS then [Entries(f.body)] else []
  }

  /** What parsing it gives, and then what parsing the rest does. */
  ghost predicate ParsesOn(f: Frame, all: Outcome, more: Outcome) {
    all.ok == more.ok && all.looks == more.looks && all.reports == ReportOf(f) + more.reports
  }

  /** The look-aheads after a frame. */
  function AfterFrame(f: Frame, rest: seq<Byte>, wants: bool, looks: seq<Word>): seq<Word>
    requires f.Valid() && LOOKAHEAD_BYTES <= |rest|
  {
    var mem := Framed(f, rest);
    if wants && f.id == 2 && mem[2] == 255 - mem[7] then [mem[3..7]]
    else if wants && f.id == 3 && 4 <= |f.body| then Words(f.body)
    else looks
  }

  lemma ParseFrame(f: Frame, rest: seq<Byte>, left: nat, wants: bool, looks: seq<Word>)
    requires f.Valid() && left + LOOKAHEAD_BYTES <= |rest| && (wants ==> !Overlong(f))
    ensures ParsesOn(f, Parse(Framed(f, rest), 2 + |f.body| + left, wants, looks),
      Parse(rest, left, wants, AfterFrame(f, rest, wants, looks)))
  {
    var mem := Framed(f, rest);
    assert mem[0] == f.id && mem[1] == |f.body|;
    assert mem[2 + |f.body|..] == rest && mem[2..2 + |f.body|] == f.body;
    var more := Parse(rest, left, wants, AfterFrame(f, rest, wants, looks));
    var all := Parse(mem, 2 + |f.body| + left, wants, looks);
    if f.id == RECORD_CREDITS {
      assert all == more.(reports := [Entries(f.body)] + more.reports);
    } else {
      assert all == more;
    }
  }

  lemma FirstBytes(frames: seq<Frame>, tail: seq<Byte>)
    requires frames != [] && LOOKAHEAD_BYTES <= |tail| && forall f :: f in frames ==> f.Valid()
    ensures Bytes(frames) + tail == From(frames, tail, 0) == Framed(frames[0], Bytes(frames[1..]) + tail)
    ensures |Bytes(frames)| == 2 + |frames[0].body| + |Bytes(frames[1..])|
  {
    var f := frames[0];
    assert f.Valid() && frames[0..] == frames;
    Regroup([f.id, |f.body|] + f.body, Bytes(frames[1..]), tail);
  }

  lemma FirstIsFramed(frames: seq<Frame>, tail: seq<Byte>, wants: bool, looks: seq<Word>)
    requires frames != [] && LOOKAHEAD_BYTES <= |tail| && forall f :: f in frames ==> f.Valid()
    ensures AfterFrame(frames[0], Bytes(frames[1..]) + tail, wants, looks)
         == if wants && Announces(frames, tail, 0) then Announced(frames, tail, 0) else looks
  {
    FirstBytes(frames, tail);
    WordsAre(frames[0].body);
  }

  /** The reports of `frames`, and then what parsing `rest` gives. */
  ghost predicate GoesOn(frames: seq<Frame>, all: Outcome, more: Outcome) {
    all.ok == more.ok && all.looks == more.looks && all.reports == CreditFrames(frames) + more.reports
  }

  lemma GoesOnBehind(frames: seq<Frame>, all: Outcome, some: Outcome, more: Outcome)
    requires frames != [] && GoesOn(frames[1..], some, more) && ParsesOn(frames[0], all, some)
    ensures GoesOn(frames, all, more)
  {
    EntriesAre(frames[0].body);
  }

  /** What the frames in front do: their credit reports come first, in order, and parsing goes
      on with the look-aheads they leave. */
  lemma {:induction false} FramesTakeEffect(frames: seq<Frame>, tail: seq<Byte>, left: nat, wants: bool,
      looks: seq<Word>) returns (now: seq<Word>)
    requires left + LOOKAHEAD_BYTES <= |tail| && forall f :: f in frames ==> f.Valid()
    requires wants ==> forall f :: f in frames ==> !Overlong(f)
    ensures if wants then AreLeft(frames, tail, looks, now) else now == looks
    ensures GoesOn(frames, Parse(Bytes(frames) + tail, |Bytes(frames)| + left, wants, looks),
      Parse(tail, left, wants, now))
  {
    if frames == [] {
      now := looks;
      assert Bytes(frames) + tail == tail;
    } else {
      var rest, n := Bytes(frames[1..]) + tail, |Bytes(frames[1..])| + left;
      var next := AfterFrame(frames[0], rest, wants, looks);
      now := FramesTakeEffect(frames[1..], tail, left, wants, next);
      FirstBytes(frames, tail);
      FirstIsFramed(frames, tail, wants, looks);
      ParseFrame(frames[0], rest, n, wants, looks);
      GoesOnBehind(frames, Parse(Bytes(frames) + tail, |Bytes(frames)| + left, wants, looks),
        Parse(rest, n, wants, next), Parse(tail, left, wants, now));
      if wants { LeftStep(frames, tail, looks, now); }
    }
  }

  /** What an accepted trailer leaves, whatever its bytes: the credit reports of its credit frames,
      in order, and the look-aheads of the last frame that announces something. */
  lemma AcceptedLeaves(mem: seq<Byte>, length: nat, wants: bool, looks: seq<Word>, frames: seq<Frame>)
    requires length + LOOKAHEAD_BYTES <= |mem| && Framing(frames, mem[..length])
    requires wants ==> forall f :: f in frames ==> !Overlong(f)
    ensures var r := Parse(mem, length, wants, looks);
      && r.ok && r.reports == CreditFrames(frames)
      && (if wants then AreLeft(frames, mem[length..], looks, r.looks) else r.looks == looks)
  {
    var now := FramesTakeEffect(frames, mem[length..], 0, wants, looks);
    assert mem[..length] + mem[length..] == mem;
  }

  /** Bytes that are no whole record, or a bundle report that is too long for the caller. */
  predicate Broken(mem: seq<Byte>, length: nat, wants: bool)
    requires length + LOOKAHEAD_BYTES <= |mem|
  {
    0 < length && (length < 2 || length - 2 < mem[1] || (wants && mem[0] == 3 && 36 <= mem[1]))
  }

  /** What a trailer leaves that is refused behind some frames: the same, for those frames. */
  lemma RefusedLeaves(frames: seq<Frame>, rest: seq<Byte>, left: nat, wants: bool, looks: seq<Word>)
    requires left + LOOKAHEAD_BYTES <= |rest| && forall f :: f in frames ==> f.Valid()
    requires (wants ==> forall f :: f in frames ==> !Overlong(f)) && Broken(rest, left, wants)
    ensures var r := Parse(Bytes(frames) + rest, |Bytes(frames)| + left, wants, looks);
      && !r.ok && r.reports == CreditFrames(frames)
      && (if wants then AreLeft(frames, rest, looks, r.looks) else r.looks == looks)
  {
    var now := FramesTakeEffect(frames, rest, left, wants, looks);
  }

  /** Every trailer is of one of these two kinds: it is whole frames to the end, or frames and
      then something that is refused. */
  lemma {:induction false} Kinds(mem: seq<Byte>, length: nat, wants: bool) returns (frames: seq<Frame>, n: nat)
    requires length + LOOKAHEAD_BYTES <= |mem|
    ensures n <= length && Framing(frames, mem[..n]) && (wants ==> forall f :: f in frames ==> !Overlong(f))
    ensures n == length || Broken(mem[n..], length - n, wants)
    decreases length
  {
    if length == 0 || Broken(mem, length, wants) {
      frames, n := [], 0;
      assert mem[0..] == mem;
    } else {
      var more, m := Kinds(mem[2 + mem[1]..], length - 2 - mem[1], wants);
      frames, n := [Frame(mem[0], mem[2..2 + mem[1]])] + more, m + 2 + mem[1];
      assert mem[2 + mem[1]..][..m] == mem[..n][2 + mem[1]..] && mem[2 + mem[1]..][m..] == mem[n..];
      FramingCons(mem, n, more);
    }
  }

  // --- what well-formed records mean ------------------------------------------------------

  datatype Record = Credits(entries: seq<Report>) | LookAhead(pre: Byte, word: Word) | Bundle(words: seq<Word>) {
    predicate Valid() {
      match this
      case Credits(entries) =>
        2 * |entries| < 256 && forall i :: 0 <= i < |entries| ==> entries[i].endpoint < 256 && entries[i].credits < 256
      case LookAhead(pre, word) => |word| == 4
      case Bundle(words) => 1 <= |words| <= HOST_MAX_MSG_PER_BUNDLE && forall i :: 0 <= i < |words| ==> |words[i]| == 4
    }
  }

  function EntryBytes(entries: seq<Report>): (r: seq<Byte>)
    requires forall i :: 0 <= i < |entries| ==> entries[i].endpoint < 256 && entries[i].credits < 256
    ensures |r| == 2 * |entries|
  {
    if entries == [] then [] else [entries[0].endpoint, entries[0].credits] + EntryBytes(entries[1..])
  }

  function WordBytes(words: seq<Word>): (r: seq<Byte>)
    requires forall i :: 0 <= i < |words| ==> |words[i]| == 4
    ensures |r| == 4 * |words|
  {
    if words == [] then [] else words[0] + WordBytes(words[1..])
  }

  function AsFrame(r: Record): (f: Frame)
    requires r.Valid()
    ensures f.Valid()
  {
    match r
    case Credits(entries) => Frame(RECORD_CREDITS, EntryBytes(entries))
    case LookAhead(pre, word) => Frame(RECORD_LOOKAHEAD, [pre] + word + [255 - pre])
    case Bundle(words) => Frame(RECORD_LOOKAHEAD_BUNDLE, WordBytes(words))
  }

  function Print(rs: seq<Record>): seq<Byte>
    requires forall r :: r in rs ==> r.Valid()
  {
    if rs == [] then []
    else
      var f := AsFrame(rs[0]);
      [f.id, |f.body|] + f.body + Print(rs[1..])
  }

  function CreditsOf(r: Record): seq<seq<Report>>
  {
    if r.Credits? then [r.entries] else []
  }

  function NextLooks(r: Record, looks: seq<Word>): seq<Word>
  {
    match r
    case Credits(_) => looks
    case LookAhead(_, word) => [word]
    case Bundle(words) => words
  }

  /** The credit reports among the records, in order. */
  function CreditReports(rs: seq<Record>): seq<seq<Report>>
  {
    if rs == [] then [] else CreditsOf(rs[0]) + CreditReports(rs[1..])
  }

  /** The look-aheads of the last record that carries any. */
  function LastLooks(rs: seq<Record>, looks: seq<Word>): seq<Word>
  {
    if rs == [] then looks
    else if rs[|rs| - 1].Credits? then LastLooks(rs[..|rs| - 1], looks)
    else NextLooks(rs[|rs| - 1], looks)
  }

  lemma {:induction false} LastLooksFront(rs: seq<Record>, looks: seq<Word>)
    requires rs != []
    ensures LastLooks(rs, looks) == LastLooks(rs[1..], NextLooks(rs[0], looks))
  {
    var n := |rs| - 1;
    if n > 0 {
      assert rs[1..][n - 1] == rs[n] && rs[..n][1..] == rs[1..][..n - 1];
      if rs[n].Credits? { LastLooksFront(rs[..n], looks); }
    } else {
      assert LastLooks(rs[..0], looks) == looks;
    }
  }

  lemma {:induction false} EntriesRoundTrip(entries: seq<Report>)
    requires forall i :: 0 <= i < |entries| ==> entries[i].endpoint < 256 && entries[i].credits < 256
    ensures Entries(EntryBytes(entries)) == entries
  {
    if entries != [] {
      EntriesRoundTrip(entries[1..]);
      assert EntryBytes(entries)[2..] == EntryBytes(entries[1..]);
    }
  }

  lemma {:induction false} WordsRoundTrip(words: seq<Word>)
    requires forall i :: 0 <= i < |words| ==> |words[i]| == 4
    ensures Words(WordBytes(words)) == words
  {
    if words != [] {
      WordsRoundTrip(words[1..]);
      assert WordBytes(words)[..4] == words[0] && WordBytes(words)[4..] == WordBytes(words[1..]);
    }
  }

  /** What one well-formed record does, whatever follows it. */
  lemma ParseOne(r: Record, rest: seq<Byte>, left: nat, wants: bool, looks: seq<Word>)
    requires r.Valid() && left + LOOKAHEAD_BYTES <= |rest|
    ensures var f := AsFrame(r);
      var more := Parse(rest, left, wants, if wants then NextLooks(r, looks) else looks);
      Parse([f.id, |f.body|] + f.body + rest, 2 + |f.body| + left, wants, looks)
        == more.(reports := CreditsOf(r) + more.reports)
  {
    var f := AsFrame(r);
    var mem := [f.id, |f.body|] + f.body + rest;
    assert mem[2 + |f.body|..] == rest && mem[2..2 + |f.body|] == f.body;
    match r
    case Credits(entries) => EntriesRoundTrip(entries);
    case LookAhead(pre, word) => assert mem[3..7] == word && mem[2] == pre && mem[7] == 255 - pre;
    case Bundle(words) => WordsRoundTrip(words);
  }

  /** Round trip: parsing printed records applies the credit reports in order and leaves the
      look-aheads of the last record that carries any. */
  lemma {:induction false} RoundTrip(rs: seq<Record>, tail: seq<Byte>, wants: bool, looks: seq<Word>)
    requires (forall r :: r in rs ==> r.Valid()) && LOOKAHEAD_BYTES <= |tail|
    ensures Parse(Print(rs) + tail, |Print(rs)|, wants, looks)
         == Outcome(true, CreditReports(rs), if wants then LastLooks(rs, looks) else looks)
  {
    if rs != [] {
      var f, more := AsFrame(rs[0]), Print(rs[1..]);
      Regroup([f.id, |f.body|] + f.body, more, tail);
      ParseOne(rs[0], more + tail, |more|, wants, looks);
      RoundTrip(rs[1..], tail, wants, if wants then NextLooks(rs[0], looks) else looks);
      LastLooksFront(rs, looks);
    }
  }

  // --- in place -----------------------------------------------------------------------------

  /** Copies the words of a bundle report over the front of the caller's array. */
  method CopyWords(body: seq<Byte>, pNextLookAheads: array<Word>)
    requires |body| / 4 <= pNextLookAheads.Length
    modifies pNextLookAheads
    ensures pNextLookAheads[..|body| / 4] == Words(body)
  {
    var i, pReport := 0, body;
    while i < |body| / 4
      invariant 0 <= i <= |body| / 4 && |pReport| == |body| - 4 * i
      invariant pNextLookAheads[..i] + Words(pReport) == Words(body)
    {
      pNextLookAheads[i] := pReport[..4];
      assert pNextLookAheads[..i + 1] == pNextLookAheads[..i] + [pReport[..4]];
      pReport := pReport[4..];
      i := i + 1;
    }
  }

  /** What the caller can see of its look-aheads. */
  function Looks(pNextLookAheads: array?<Word>, numLookAheads: nat): seq<Word>
    requires pNextLookAheads != null ==> numLookAheads <= pNextLookAheads.Length
    reads pNextLookAheads
  {
    if pNextLookAheads == null then [] else pNextLookAheads[..numLookAheads]
  }

  /** Having applied `reports`, parsing on completes `all`. */
  ghost predicate ParseLeads(reports: seq<seq<Report>>, mem: seq<Byte>, length: nat, wants: bool, looks: seq<Word>,
      all: Outcome)
    requires length + LOOKAHEAD_BYTES <= |mem|
  {
    var more := Parse(mem, length, wants, looks);
    all == Outcome(more.ok, reports + more.reports, more.looks)
  }

  lemma ParseLeadsOn(reports: seq<seq<Report>>, mem: seq<Byte>, length: nat, wants: bool, looks: seq<Word>,
      all: Outcome)
    requires length + LOOKAHEAD_BYTES <= |mem| && ParseLeads(reports, mem, length, wants, looks, all)
    requires 2 <= length && mem[1] <= length - 2
    ensures var n := mem[1];
      var f, rest := Frame(mem[0], mem[2..2 + n]), mem[2 + n..];
      if wants && Overlong(f) then all == Outcome(false, reports, looks)
      else ParseLeads(reports + ReportOf(f), rest, length - 2 - n, wants, AfterFrame(f, rest, wants, looks), all)
  {
    var n := mem[1];
    var f, rest := Frame(mem[0], mem[2..2 + n]), mem[2 + n..];
    assert mem == Framed(f, rest);
    if wants && Overlong(f) {
      assert all.reports == reports + [] == reports;
    } else {
      var more := Parse(rest, length - 2 - n, wants, AfterFrame(f, rest, wants, looks));
      ParseFrame(f, rest, length - 2 - n, wants, looks);
      Regroup(reports, ReportOf(f), more.reports);
    }
  }

  /** The credit report of a record, and what it does to the look-aheads of the caller. */
  method ApplyRecord(mem: seq<Byte>, pNextLookAheads: array?<Word>, numBefore: nat)
      returns (ok: bool, report: seq<seq<Report>>, numLookAheads: nat)
    requires 2 <= |mem| && mem[1] as int + LOOKAHEAD_BYTES <= |mem| - 2
    requires pNextLookAheads != null ==> numBefore <= pNextLookAheads.Length == HOST_MAX_MSG_PER_BUNDLE
    modifies pNextLookAheads
    ensures pNextLookAheads != null ==> numLookAheads <= HOST_MAX_MSG_PER_BUNDLE
    ensures var f, rest := Frame(mem[0], mem[2..2 + mem[1]]), mem[2 + mem[1]..];
      && ok == !(pNextLookAheads != null && Overlong(f)) && report == ReportOf(f)
      && Looks(pNextLookAheads, numLookAheads)
         == if ok then AfterFrame(f, rest, pNextLookAheads != null, old(Looks(pNextLookAheads, numBefore)))
            else old(Looks(pNextLookAheads, numBefore))
  {
    ok, report, numLookAheads := true, [], numBefore;
    var recordID, recordLength := mem[0], mem[1];
    assert mem == Framed(Frame(mem[0], mem[2..2 + mem[1]]), mem[2 + mem[1]..]);
    if recordID == RECORD_CREDITS {
      report := [Entries(mem[2..2 + recordLength])];
    } else if recordID == RECORD_LOOKAHEAD {
      if Guarded(mem[2], mem[7]) && pNextLookAheads != null {
        pNextLookAheads[0] := mem[3..7];
        numLookAheads := 1;
        assert Looks(pNextLookAheads, 1) == [mem[3..7]];
      }
    } else if recordID == RECORD_LOOKAHEAD_BUNDLE {
      if recordLength >= 4 && pNextLookAheads != null {
        if recordLength / 4 > HOST_MAX_MSG_PER_BUNDLE {
          return false, [], numBefore;
        }
        CopyWords(mem[2..2 + recordLength], pNextLookAheads);
        numLookAheads := recordLength / 4;
      }
    }
  }

  method ProcessTrailer(mem: seq<Byte>, trailerLength: nat, pNextLookAheads: array?<Word>, numBefore: nat)
    returns (ok: bool, reports: seq<seq<Report>>, numLookAheads: nat)
    requires trailerLength + LOOKAHEAD_BYTES <= |mem|
    requires pNextLookAheads != null ==> numBefore <= pNextLookAheads.Length == HOST_MAX_MSG_PER_BUNDLE
    modifies pNextLookAheads
    ensures pNextLookAheads != null ==> numLookAheads <= HOST_MAX_MSG_PER_BUNDLE
    ensures Parse(mem, trailerLength, pNextLookAheads != null, old(Looks(pNextLookAheads, numBefore)))
         == Outcome(ok, reports, Looks(pNextLookAheads, numLookAheads))
  {
    ok, reports, numLookAheads := true, [], numBefore;
    var pBuffer: seq<Byte>, Length: nat := mem, trailerLength;
    ghost var wants := pNextLookAheads != null;
    ghost var all := Parse(mem, trailerLength, wants, Looks(pNextLookAheads, numBefore));
    while Length > 0
      invariant Length + LOOKAHEAD_BYTES <= |pBuffer|
      invariant pNextLookAheads != null ==> numLookAheads <= HOST_MAX_MSG_PER_BUNDLE
      invariant ParseLeads(reports, pBuffer, Length, wants, Looks(pNextLookAheads, numLookAheads), all)
      decreases Length
    {
      if Length < 2 || pBuffer[1] > Length - 2 {
        ok := false;
        break;
      }
      ParseLeadsOn(reports, pBuffer, Length, wants, Looks(pNextLookAheads, numLookAheads), all);
      var recordLength := pBuffer[1];
      var report;
      ok, report, numLookAheads := ApplyRecord(pBuffer, pNextLookAheads, numLookAheads);
      if !ok {
        break;
      }
      reports := reports + report;
      pBuffer := pBuffer[2 + recordLength..];
      Length := Length - 2 - recordLength;
    }
  }
}
