/** The wire format (internal/protocol/protocol.go): length-prefixed frames, and the stream that
    concurrent senders produce through one write lock (send in internal/server/tunnel.go and in
    internal/client/client.go). Payloads are the encoded envelopes, as bytes. */
module Framing {
  import opened Common

  type Byte = x: int | 0 <= x < 256
  type Payload = seq<Byte>

  const MAX_MESSAGE_SIZE: int := 8 * 1024 * 1024
  const WORD: int := 0x1_0000_0000

  // ---------------------------------------------------------------- frames

  /** binary.BigEndian.PutUint32 of a length converted to uint32. */
  function Header(length: nat): (h: seq<Byte>)
    ensures |h| == 4
  {
    var n := length % WORD;
    [n / 0x100_0000, n / 0x1_0000 % 256, n / 256 % 256, n % 256]
  }

  function HeaderValue(h: seq<Byte>): (n: nat)
    requires |h| == 4
    ensures n < WORD
  {
    var a: int, b: int, c: int := h[0], h[1], h[2];
    a * 0x100_0000 + b * 0x1_0000 + c * 256 + h[3]
  }

  lemma HeaderRoundTrip(length: nat)
    ensures HeaderValue(Header(length)) == length % WORD
  {
    var n := length % WORD;
    assert n == n / 256 * 256 + n % 256;
    assert n / 256 == n / 0x1_0000 * 256 + n / 256 % 256;
    assert n / 0x1_0000 == n / 0x100_0000 * 256 + n / 0x1_0000 % 256;
  }

  /** A number in base 256, most significant digit first. */
  function BigEndian(digits: seq<Byte>): nat {
    if digits == [] then 0 else 256 * BigEndian(digits[..|digits| - 1]) + digits[|digits| - 1]
  }

  lemma HeaderIsBigEndian(length: nat)
    ensures BigEndian(Header(length)) == length % WORD
  {
    var h := Header(length);
    HeaderRoundTrip(length);
    assert h[..3][..2] == h[..2] && h[..2][..1] == h[..1] && h[..1][..0] == [];
    assert BigEndian(h[..1]) == h[0];
    assert BigEndian(h[..2]) == 256 * BigEndian(h[..1]) + h[1];
    assert BigEndian(h[..3]) == 256 * BigEndian(h[..2]) + h[2];
  }

  function Encode(payload: Payload): seq<Byte> {
    Header(|payload|) + payload
  }

  /** The outcome of one Decode, and the bytes that it leaves in the reader. */
  datatype Decoded =
    | Frame(payload: Payload, rest: seq<Byte>)
    | Truncated(rest: seq<Byte>)
    | InvalidSize(size: nat, rest: seq<Byte>)

  function Decode(bytes: seq<Byte>): Decoded {
    if |bytes| < 4 then Truncated([])
    else
      var size := HeaderValue(bytes[..4]);
      if size == 0 || size > MAX_MESSAGE_SIZE then InvalidSize(size, bytes[4..])
      else if |bytes| - 4 < size then Truncated([])
      else Frame(bytes[4..4 + size], bytes[4 + size..])
  }

  predicate Sendable(payload: Payload) {
    1 <= |payload| <= 0x80_0000
  }

  /** Encode does not check sizes; Decode undoes it exactly for the sizes that it accepts. */
  lemma DecodeEncodeIff(payload: Payload, rest: seq<Byte>)
    ensures Decode(Encode(payload) + rest) == Frame(payload, rest) <==> Sendable(payload)
  {
    var bytes := Encode(payload) + rest;
    assert bytes[..4] == Header(|payload|);
    HeaderRoundTrip(|payload|);
    if Sendable(payload) {
      assert bytes[4..4 + |payload|] == payload;
      assert bytes[4 + |payload|..] == rest;
    }
  }

  /** The converse: what Decode accepts is the encoding of what it returns. */
  lemma EncodeDecode(bytes: seq<Byte>)
    requires Decode(bytes).Frame?
    ensures Sendable(Decode(bytes).payload) && Encode(Decode(bytes).payload) + Decode(bytes).rest == bytes
  {
    var h := bytes[..4];
    var size := HeaderValue(h);
    HeaderIsCanonical(h);
    assert bytes == h + bytes[4..4 + size] + bytes[4 + size..];
  }

  lemma HeaderIsCanonical(h: seq<Byte>)
    requires |h| == 4
    ensures Header(HeaderValue(h)) == h
  {
    var n := HeaderValue(h);
    var a: int, b: int, c: int := h[0], h[1], h[2];
    assert n / 256 == a * 0x1_0000 + b * 256 + c && n % 256 == h[3];
    assert n / 0x1_0000 == a * 256 + b;
    assert n / 0x100_0000 == a;
  }

  // --------------------------------------------------- the two ends of a stream

  class Stream {
    var data: seq<Byte>

    constructor ()
      ensures data == []
    {
      data := [];
    }

    method Write(bytes: seq<Byte>)
      modifies this
      ensures data == old(data) + bytes
    {
      data := data + bytes;
    }

    /** io.ReadFull: all n bytes, or whatever is left and an error. */
    method ReadFull(n: nat) returns (bytes: Option<seq<Byte>>)
      modifies this
      ensures if n <= |old(data)| then bytes == Some(old(data)[..n]) && data == old(data)[n..]
              else bytes.None? && data == []
    {
      if n <= |data| {
        bytes := Some(data[..n]);
        data := data[n..];
      } else {
        bytes := None;
        data := [];
      }
    }

    method EncodeTo(payload: Payload)
      modifies this
      ensures data == old(data) + Encode(payload)
    {
      Write(Header(|payload|));
      Write(payload);
      assert data == old(data) + Encode(payload);
    }

    /** `parse` reads the envelope and the value in it; what it cannot read is an error, but the
        frame is consumed all the same. */
    method DecodeFrom<T>(parse: Payload -> Option<T>) returns (value: Option<T>)
      modifies this
      ensures data == Decode(old(data)).rest
      ensures value == match Decode(old(data)) case Frame(payload, _) => parse(payload) case _ => None
    {
      var header := ReadFull(4);
      if header.None? {
        return None;
      }
      var size := HeaderValue(header.value);
      if size == 0 || size > MAX_MESSAGE_SIZE {
        return None;
      }
      var payload := ReadFull(size);
      if payload.None? {
        return None;
      }
      assert old(data)[4..][..size] == old(data)[4..4 + size];
      assert old(data)[4..][size..] == old(data)[4 + size..];
      value := parse(payload.value);
    }
  }

  // -------------------------------------------------------- streams of frames

  function Frames(payloads: seq<Payload>): seq<Byte> {
    if payloads == [] then [] else Encode(payloads[0]) + Frames(payloads[1..])
  }

  /** Decodes until something is not a frame; returns the payloads and what is left. */
  function DecodeAll(bytes: seq<Byte>): (seq<Payload>, seq<Byte>)
    decreases |bytes|
  {
    match Decode(bytes)
    case Frame(payload, rest) =>
      var (more, left) := DecodeAll(rest);
      ([payload] + more, left)
    case _ => ([], bytes)
  }

  lemma DecodeOne(payload: Payload, tail: seq<Byte>)
    requires Sendable(payload)
    ensures DecodeAll(Encode(payload) + tail) == ([payload] + DecodeAll(tail).0, DecodeAll(tail).1)
  {
    DecodeEncodeIff(payload, tail);
  }

  /** Any sequence of frames, followed by anything, is decoded frame by frame. */
  lemma {:induction false} DecodeFrames(payloads: seq<Payload>, rest: seq<Byte>)
    requires forall i :: 0 <= i < |payloads| ==> Sendable(payloads[i])
    ensures DecodeAll(Frames(payloads) + rest) == (payloads + DecodeAll(rest).0, DecodeAll(rest).1)
  {
    hide Encode, Decode;
    if payloads == [] {
      assert Frames(payloads) + rest == rest;
      assert payloads + DecodeAll(rest).0 == DecodeAll(rest).0;
    } else {
      DecodeFrames(payloads[1..], rest);
      var tail := Frames(payloads[1..]) + rest;
      assert Frames(payloads) + rest == Encode(payloads[0]) + tail;
      DecodeOne(payloads[0], tail);
      assert [payloads[0]] + (payloads[1..] + DecodeAll(rest).0) == payloads + DecodeAll(rest).0;
    }
  }

  lemma {:induction false} FramesAppend(payloads: seq<Payload>, last: Payload)
    ensures Frames(payloads + [last]) == Frames(payloads) + Encode(last)
  {
    if payloads == [] {
      assert payloads + [last] == [last];
      assert Frames([last]) == Encode(last) + Frames([]);
    } else {
      FramesAppend(payloads[1..], last);
      assert (payloads + [last])[1..] == payloads[1..] + [last];
    }
  }

  // ------------------------------------------------------- concurrent senders

  datatype Sent = Sent(sender: nat, payload: Payload)

  /** The lock holder's frame: nothing written yet, or the header only. */
  datatype Writing = Idle | Locked(frame: Sent) | HeaderOut(frame: Sent)

  /** `todo` is what each sender still has to send, in its own order; `sent` is history. */
  datatype State = State(stream: seq<Byte>, lock: Writing, todo: map<nat, seq<Payload>>, sent: seq<Sent>)

  datatype Label = Acquire(sender: nat) | WriteHeader | WriteBody

  predicate Enabled(s: State, l: Label) {
    match l
    case Acquire(sender) => s.lock.Idle? && sender in s.todo && s.todo[sender] != []
    case WriteHeader => s.lock.Locked?
    case WriteBody => s.lock.HeaderOut?
  }

  function Apply(s: State, l: Label): State
    requires Enabled(s, l)
  {
    match l
    case Acquire(sender) =>
      s.(lock := Locked(Sent(sender, s.todo[sender][0])), todo := s.todo[sender := s.todo[sender][1..]])
    case WriteHeader => s.(stream := s.stream + Header(|s.lock.frame.payload|), lock := HeaderOut(s.lock.frame))
    case WriteBody => s.(stream := s.stream + s.lock.frame.payload, lock := Idle, sent := s.sent + [s.lock.frame])
  }

  function Payloads(sent: seq<Sent>): seq<Payload> {
    if sent == [] then [] else Payloads(sent[..|sent| - 1]) + [sent[|sent| - 1].payload]
  }

  /** What one sender contributed, in order. */
  function By(sent: seq<Sent>, sender: nat): seq<Payload> {
    if sent == [] then []
    else By(sent[..|sent| - 1], sender) + (if sent[|sent| - 1].sender == sender then [sent[|sent| - 1].payload] else [])
  }

  function Partial(lock: Writing): seq<Byte> {
    if lock.HeaderOut? then Header(|lock.frame.payload|) else []
  }

  function InHand(lock: Writing, sender: nat): seq<Payload> {
    if !lock.Idle? && lock.frame.sender == sender then [lock.frame.payload] else []
  }

  ghost predicate Inv(s: State, programs: map<nat, seq<Payload>>) {
    && s.stream == Frames(Payloads(s.sent)) + Partial(s.lock)
    && s.todo.Keys == programs.Keys
    && (forall sender :: sender in programs ==>
         By(s.sent, sender) + InHand(s.lock, sender) + s.todo[sender] == programs[sender])
  }

  lemma FirstMoves<T>(done: seq<T>, todo: seq<T>)
    requires todo != []
    ensures done + [todo[0]] + todo[1..] == done + [] + todo
  {
  }

  lemma ByAppend(sent: seq<Sent>, last: Sent, sender: nat)
    ensures By(sent + [last], sender) == By(sent, sender) + (if last.sender == sender then [last.payload] else [])
    ensures Payloads(sent + [last]) == Payloads(sent) + [last.payload]
  {
    assert (sent + [last])[..|sent|] == sent;
  }

  lemma AcquireInv(s: State, sender: nat, programs: map<nat, seq<Payload>>)
    requires Inv(s, programs) && Enabled(s, Acquire(sender))
    ensures Inv(Apply(s, Acquire(sender)), programs)
  {
    hide By, Frames, Payloads;
    var t := Apply(s, Acquire(sender));
    forall x | x in programs
      ensures By(t.sent, x) + InHand(t.lock, x) + t.todo[x] == programs[x]
    {
      assert By(s.sent, x) + InHand(s.lock, x) + s.todo[x] == programs[x];
      if x == sender { FirstMoves(By(s.sent, x), s.todo[x]); }
    }
  }

  lemma WriteHeaderInv(s: State, programs: map<nat, seq<Payload>>)
    requires Inv(s, programs) && Enabled(s, WriteHeader)
    ensures Inv(Apply(s, WriteHeader), programs)
  {
    hide By, Frames, Payloads, Header;
    var t := Apply(s, WriteHeader);
    assert t.stream == Frames(Payloads(t.sent)) + Partial(t.lock);
    forall x | x in programs
      ensures By(t.sent, x) + InHand(t.lock, x) + t.todo[x] == programs[x]
    {
      assert InHand(t.lock, x) == InHand(s.lock, x);
    }
  }

  lemma WriteBodyInv(s: State, programs: map<nat, seq<Payload>>)
    requires Inv(s, programs) && Enabled(s, WriteBody)
    ensures Inv(Apply(s, WriteBody), programs)
  {
    hide By, Frames, Payloads, Header;
    var t, frame := Apply(s, WriteBody), s.lock.frame;
    ByAppend(s.sent, frame, frame.sender);
    FramesAppend(Payloads(s.sent), frame.payload);
    assert t.stream == Frames(Payloads(t.sent)) + Partial(t.lock);
    forall x | x in programs
      ensures By(t.sent, x) + InHand(t.lock, x) + t.todo[x] == programs[x]
    {
      ByAppend(s.sent, frame, x);
      assert By(s.sent, x) + InHand(s.lock, x) + s.todo[x] == programs[x];
    }
  }

  lemma StepInv(s: State, l: Label, programs: map<nat, seq<Payload>>)
    requires Inv(s, programs) && Enabled(s, l)
    ensures Inv(Apply(s, l), programs)
  {
    hide Inv;
    match l
    case Acquire(sender) => AcquireInv(s, sender, programs);
    case WriteHeader => WriteHeaderInv(s, programs);
    case WriteBody => WriteBodyInv(s, programs);
  }

  ghost predicate IsRun(programs: map<nat, seq<Payload>>, states: seq<State>, labels: seq<Label>) {
    && |states| == |labels| + 1
    && states[0] == State([], Idle, programs, [])
    && forall i {:trigger StepAt(states, labels, i)} :: 0 <= i < |labels| ==> StepAt(states, labels, i)
  }

  ghost predicate StepAt(states: seq<State>, labels: seq<Label>, i: int) {
    0 <= i < |labels| && i + 1 < |states| && Enabled(states[i], labels[i]) && states[i + 1] == Apply(states[i], labels[i])
  }

  lemma {:induction false} RunInv(programs: map<nat, seq<Payload>>, states: seq<State>, labels: seq<Label>, n: nat)
    requires IsRun(programs, states, labels) && n < |states|
    ensures Inv(states[n], programs)
  {
    if n > 0 {
      RunInv(programs, states, labels, n - 1);
      assert StepAt(states, labels, n - 1);
      StepInv(states[n - 1], labels[n - 1], programs);
    }
  }

  lemma {:induction false} PayloadsAt(sent: seq<Sent>, i: nat)
    requires i < |sent|
    ensures |Payloads(sent)| == |sent| && Payloads(sent)[i] == sent[i].payload
  {
    if i < |sent| - 1 {
      PayloadsAt(sent[..|sent| - 1], i);
    } else if |sent| > 1 {
      PayloadsAt(sent[..|sent| - 1], 0);
    }
  }

  /** However the senders interleave, the peer decodes complete frames only, in one order that
      keeps every sender's own order; between writes there is nothing left over. */
  lemma StreamIsMerge(programs: map<nat, seq<Payload>>, states: seq<State>, labels: seq<Label>, n: nat)
    requires IsRun(programs, states, labels) && n < |states|
    requires forall i :: 0 <= i < |states[n].sent| ==> Sendable(states[n].sent[i].payload)
    ensures var s := states[n];
            && DecodeAll(s.stream) == (Payloads(s.sent), Partial(s.lock))
            && forall sender :: sender in programs ==>
                 By(s.sent, sender) <= programs[sender]
                 && (s.lock.Idle? && sender in s.todo && s.todo[sender] == [] ==> By(s.sent, sender) == programs[sender])
  {
    RunInv(programs, states, labels, n);
    var s := states[n];
    forall i | 0 <= i < |Payloads(s.sent)| ensures Sendable(Payloads(s.sent)[i]) {
      if |s.sent| > 0 { PayloadsAt(s.sent, 0); }
      PayloadsAt(s.sent, i);
    }
    DecodeFrames(Payloads(s.sent), Partial(s.lock));
    PartialIsNoFrame(s.lock);
    assert Payloads(s.sent) + [] == Payloads(s.sent);
  }

  lemma PartialIsNoFrame(lock: Writing)
    ensures DecodeAll(Partial(lock)) == ([], Partial(lock))
  {
    if lock.HeaderOut? {
      var h := Header(|lock.frame.payload|);
      assert |h| - 4 < 1;
    }
  }

  /** Whoever holds the write lock can finish its frame. */
  lemma LockIsGivenBack(s: State) returns (t: State)
    requires !s.lock.Idle?
    ensures t.lock.Idle? && t.todo == s.todo && t.sent == s.sent + [s.lock.frame]
    ensures s.lock.Locked? ==>
              && Enabled(s, WriteHeader) && Enabled(Apply(s, WriteHeader), WriteBody)
              && t == Apply(Apply(s, WriteHeader), WriteBody) && t.stream == s.stream + Encode(s.lock.frame.payload)
    ensures s.lock.HeaderOut? ==>
              Enabled(s, WriteBody) && t == Apply(s, WriteBody) && t.stream == s.stream + s.lock.frame.payload
  {
    if s.lock.Locked? {
      t := Apply(Apply(s, WriteHeader), WriteBody);
    } else {
      t := Apply(s, WriteBody);
    }
  }

  /** A sender that has something to send can take a free write lock, and no other. */
  lemma SenderTakesLockIff(s: State, sender: nat)
    ensures Enabled(s, Acquire(sender)) <==> s.lock.Idle? && sender in s.todo && s.todo[sender] != []
    ensures Enabled(s, Acquire(sender)) ==> Apply(s, Acquire(sender)).lock == Locked(Sent(sender, s.todo[sender][0]))
  {
  }

  /** Envelopes are JSON objects, so they start with an opening brace. */
  predicate IsEnvelope(payload: Payload) {
    Sendable(payload) && payload[0] == 0x7B
  }

  /** The i-th write of senders that hold the lock: headers and bodies take turns. */
  function LockedWrite(frames: seq<Payload>, i: nat): seq<Byte>
    requires i < 2 * |frames|
  {
    if i % 2 == 0 then Header(|frames[i / 2]|) else frames[i / 2]
  }

  function LockedWrites(frames: seq<Payload>, i: nat, j: nat): seq<Byte>
    requires i <= j <= 2 * |frames|
    decreases j - i
  {
    if i == j then [] else LockedWrite(frames, i) + LockedWrites(frames, i + 1, j)
  }

  /** The stream when one sender does not take the lock: its header comes after p, its body after
      q of the other senders' writes. */
  function Race(frames: seq<Payload>, a: Payload, p: nat, q: nat): seq<Byte>
    requires p <= q <= 2 * |frames|
  {
    LockedWrites(frames, 0, p) + (Header(|a|) + (LockedWrites(frames, p, q) + (a + LockedWrites(frames, q, 2 * |frames|))))
  }

  /** A frame written past the lock, as the `registered` reply is: everything is decoded, with
      this frame in its place, exactly when its two writes come together between two other frames. */
  lemma UnlockedFrameSurvivesIff(frames: seq<Payload>, a: Payload, p: nat, q: nat)
    requires IsEnvelope(a) && p <= q <= 2 * |frames|
    requires forall i :: 0 <= i < |frames| ==> Sendable(frames[i])
    ensures DecodeAll(Race(frames, a, p, q)).0 == frames[..p / 2] + [a] + frames[p / 2..] <==> p == q && p % 2 == 0
  {
    hide DecodeAll, Race, Frames;
    if p == q && p % 2 == 0 {
      TogetherSurvives(frames, a, p / 2);
    } else {
      var k := p / 2;
      var rest := RaceBreaks(frames, a, p, q);
      DecodeFrames(frames[..k], rest);
      assert (frames[..k] + [a] + frames[k..])[k] == a;
      assert (frames[..k] + DecodeAll(rest).0)[k] == DecodeAll(rest).0[0];
    }
  }

  /** The client takes the first frame that it decodes as the reply to its registration. That is
      the unlocked reply if and only if no other write comes before its second one. */
  lemma FirstFrameIsReplyIff(frames: seq<Payload>, a: Payload, p: nat, q: nat)
    requires IsEnvelope(a) && p <= q <= 2 * |frames| && a !in frames
    requires forall i :: 0 <= i < |frames| ==> Sendable(frames[i])
    ensures var decoded := DecodeAll(Race(frames, a, p, q)).0;
            (decoded != [] && decoded[0] == a) <==> q == 0
  {
    hide DecodeAll, Race, Frames;
    var k := p / 2;
    assert k > 0 ==> frames[..k][0] == frames[0] != a;
    if p == q && p % 2 == 0 {
      TogetherSurvives(frames, a, k);
    } else {
      var rest := RaceBreaks(frames, a, p, q);
      DecodeFrames(frames[..k], rest);
    }
  }

  lemma TogetherSurvives(frames: seq<Payload>, a: Payload, k: nat)
    requires Sendable(a) && k <= |frames|
    requires forall i :: 0 <= i < |frames| ==> Sendable(frames[i])
    ensures DecodeAll(Race(frames, a, 2 * k, 2 * k)).0 == frames[..k] + [a] + frames[k..]
  {
    hide DecodeAll, Frames, Header;
    FramesFromWrites(frames, k);
    WritesToFrames(frames, k);
    var tail := Frames(frames[k..]);
    assert Header(|a|) + ([] + (a + tail)) == Encode(a) + tail;
    DecodeFrames(frames[..k], Encode(a) + tail);
    DecodeOne(a, tail);
    DecodeFrames(frames[k..], []);
    assert tail + [] == tail;
    NothingDecoded();
    assert frames[..k] + ([a] + (frames[k..] + [])) == frames[..k] + [a] + frames[k..];
  }

  lemma NothingDecoded()
    ensures DecodeAll([]) == ([], [])
  {
  }

  /** Otherwise one header comes right after another. */
  lemma RaceBreaks(frames: seq<Payload>, a: Payload, p: nat, q: nat) returns (rest: seq<Byte>)
    requires IsEnvelope(a) && p <= q <= 2 * |frames| && (p < q || p % 2 == 1)
    requires forall i :: 0 <= i < |frames| ==> Sendable(frames[i])
    ensures Race(frames, a, p, q) == Frames(frames[..p / 2]) + rest
    ensures DecodeAll(rest).0 != [] && DecodeAll(rest).0[0] != a
  {
    hide DecodeAll, Frames, Header, LockedWrites;
    WritesToFrames(frames, p / 2);
    if p % 2 == 0 {
      rest := HeaderBeforeOthers(frames, a, p, q);
    } else {
      rest := HeaderBeforeBody(frames, a, p, q);
    }
  }

  lemma HeaderBeforeOthers(frames: seq<Payload>, a: Payload, p: nat, q: nat) returns (rest: seq<Byte>)
    requires IsEnvelope(a) && p < q <= 2 * |frames| && p % 2 == 0 && Sendable(frames[p / 2])
    ensures Race(frames, a, p, q) == LockedWrites(frames, 0, p) + rest
    ensures DecodeAll(rest).0 != [] && DecodeAll(rest).0[0] != a
  {
    hide DecodeAll, Header;
    var next := Header(|frames[p / 2]|);
    var last := a + LockedWrites(frames, q, 2 * |frames|);
    var more := LockedWrites(frames, p + 1, q) + last;
    rest := Header(|a|) + (next + more);
    assert LockedWrites(frames, p, q) == next + LockedWrites(frames, p + 1, q);
    assert LockedWrites(frames, p, q) + last == next + more;
    TwoHeaders(|a|, |frames[p / 2]|, more, a);
  }

  lemma HeaderBeforeBody(frames: seq<Payload>, a: Payload, p: nat, q: nat) returns (rest: seq<Byte>)
    requires IsEnvelope(a) && p <= q <= 2 * |frames| && p % 2 == 1 && Sendable(frames[p / 2])
    ensures Race(frames, a, p, q) == LockedWrites(frames, 0, p - 1) + rest
    ensures DecodeAll(rest).0 != [] && DecodeAll(rest).0[0] != a
  {
    hide DecodeAll, Header, LockedWrites;
    var started := Header(|frames[p / 2]|);
    var more := LockedWrites(frames, p, q) + (a + LockedWrites(frames, q, 2 * |frames|));
    rest := started + (Header(|a|) + more);
    OneMoreWrite(frames, p - 1);
    assert (LockedWrites(frames, 0, p - 1) + started) + (Header(|a|) + more) == LockedWrites(frames, 0, p - 1) + rest;
    BodyIsWritten(frames, a, p, q);
    TwoHeaders(|frames[p / 2]|, |a|, more, a);
  }

  lemma BodyIsWritten(frames: seq<Payload>, a: Payload, p: nat, q: nat)
    requires p <= q <= 2 * |frames| && p % 2 == 1
    ensures |LockedWrites(frames, p, q)| + |LockedWrites(frames, q, 2 * |frames|)| >= |frames[p / 2]|
  {
    if p < q {
      assert LockedWrites(frames, p, q) == frames[p / 2] + LockedWrites(frames, p + 1, q);
    } else {
      assert LockedWrites(frames, q, 2 * |frames|) == frames[p / 2] + LockedWrites(frames, p + 1, 2 * |frames|);
    }
  }

  /** A frame whose payload starts with another header is no envelope. */
  lemma TwoHeaders(length: nat, next: nat, more: seq<Byte>, a: Payload)
    requires 1 <= length <= MAX_MESSAGE_SIZE && next <= MAX_MESSAGE_SIZE && length <= |more| && IsEnvelope(a)
    ensures var decoded := DecodeAll(Header(length) + (Header(next) + more)).0;
            decoded != [] && decoded[0] != a
  {
    hide DecodeAll, Decode, Header, HeaderValue;
    var bytes := Header(length) + (Header(next) + more);
    HeaderRoundTrip(length);
    HeaderTop(next);
    assert bytes[..4] == Header(length);
    DecodeLong(bytes, length);
    assert bytes[4..4 + length][0] == bytes[4] == Header(next)[0] == 0;
    DecodeAllHead(bytes);
  }

  lemma DecodeLong(bytes: seq<Byte>, length: nat)
    requires 1 <= length <= MAX_MESSAGE_SIZE && |bytes| >= 4 + length && HeaderValue(bytes[..4]) == length
    ensures Decode(bytes) == Frame(bytes[4..4 + length], bytes[4 + length..])
  {
  }

  lemma {:induction false} OneMoreWrite(frames: seq<Payload>, j: nat)
    requires j < 2 * |frames|
    ensures LockedWrites(frames, 0, j + 1) == LockedWrites(frames, 0, j) + LockedWrite(frames, j)
  {
    WritesExtend(frames, 0, j);
  }

  lemma {:induction false} WritesExtend(frames: seq<Payload>, i: nat, j: nat)
    requires i <= j < 2 * |frames|
    ensures LockedWrites(frames, i, j + 1) == LockedWrites(frames, i, j) + LockedWrite(frames, j)
    decreases j - i
  {
    hide LockedWrite;
    if i < j { WritesExtend(frames, i + 1, j); }
  }

  lemma OneMoreFrame(frames: seq<Payload>, k: nat)
    requires k < |frames|
    ensures LockedWrites(frames, 0, 2 * k + 2) == LockedWrites(frames, 0, 2 * k) + Encode(frames[k])
  {
    hide LockedWrites, Header;
    OneMoreWrite(frames, 2 * k);
    OneMoreWrite(frames, 2 * k + 1);
  }

  lemma {:induction false} WritesToFrames(frames: seq<Payload>, k: nat)
    requires k <= |frames|
    ensures LockedWrites(frames, 0, 2 * k) == Frames(frames[..k])
  {
    if k > 0 {
      hide LockedWrites, Frames, Encode;
      WritesToFrames(frames, k - 1);
      OneMoreFrame(frames, k - 1);
      FramesAppend(frames[..k - 1], frames[k - 1]);
      assert frames[..k - 1] + [frames[k - 1]] == frames[..k];
    }
  }

  lemma {:induction false} FramesFromWrites(frames: seq<Payload>, k: nat)
    requires k <= |frames|
    ensures LockedWrites(frames, 2 * k, 2 * |frames|) == Frames(frames[k..])
    decreases |frames| - k
  {
    hide Header;
    if k < |frames| {
      FramesFromWrites(frames, k + 1);
      assert frames[k..][1..] == frames[k + 1..];
    }
  }

  lemma DecodeAllHead(bytes: seq<Byte>)
    requires Decode(bytes).Frame?
    ensures DecodeAll(bytes).0 != [] && DecodeAll(bytes).0[0] == Decode(bytes).payload
  {
  }

  lemma HeaderTop(length: nat)
    requires length <= MAX_MESSAGE_SIZE
    ensures Header(length)[0] == 0
  {
  }
}
