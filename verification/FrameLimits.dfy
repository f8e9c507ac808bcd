/**
 The WebSocket frame limiter of accessa_transport.rs: an incremental reader of RFC 6455 frame headers that skips
 payloads, and the sequences of frames it stands for (sections 5.1, 5.2, 5.4 and 5.5 of RFC 6455).
 */
module FrameLimits {
  import opened Base

  /** The limit on one frame and on one message, and whether frames must be masked. */
  datatype Config = Config(max: nat, masked: bool)

  datatype State = State(
    frames: nat, closeSeen: bool, header: seq<byte>, remaining: nat, messageBytes: nat, fragmented: bool)

  const INITIAL := State(0, false, [], 0, 0, false)

  datatype Verdict = Accepted | TooLarge | Malformed

  datatype Outcome = Outcome(state: State, verdict: Verdict)

  // ----- the reader, one byte at a time -----

  function ExtendedLength(marker: nat): nat { if marker == 126 then 2 else if marker == 127 then 8 else 0 }

  function HeaderLength(c: Config, second: byte): nat {
    2 + ExtendedLength(second % 128) + (if c.masked then 4 else 0)
  }

  predicate Complete(c: Config, header: seq<byte>) {
    |header| >= 2 && |header| >= HeaderLength(c, header[1])
  }

  function BigEndian(s: seq<byte>): nat {
    if s == [] then 0 else BigEndian(s[..|s| - 1]) * 256 + s[|s| - 1]
  }

  function Size(c: Config, header: seq<byte>): nat
    requires Complete(c, header)
  {
    var marker := header[1] % 128;
    if ExtendedLength(marker) == 0 then marker else BigEndian(header[2..2 + ExtendedLength(marker)])
  }

  function Opcode(first: byte): nat { first % 16 }

  predicate Fin(first: byte) { first >= 128 }

  predicate Invalid(c: Config, header: seq<byte>)
    requires Complete(c, header)
  {
    var marker, size := header[1] % 128, Size(c, header);
    || (header[0] / 16) % 8 != 0
    || (header[1] >= 128) != c.masked
    || size > c.max
    || size > I64_MAX
    || (marker == 126 && size < 126)
    || (marker == 127 && size <= 65535)
  }

  function Saturate(n: nat): nat { Min(n, U64_MAX) }

  /** The counters once a frame with this opcode, FIN bit and size has been admitted. */
  function Admit(st: State, opcode: nat, fin: bool, size: nat, messageBytes: nat): State {
    State(
      Saturate(st.frames + 1),
      st.closeSeen || opcode == 8,
      [],
      size,
      if opcode >= 8 then st.messageBytes else if fin then 0 else messageBytes,
      if opcode >= 8 then st.fragmented else !fin)
  }

  /** What a complete header leads to. A rejected header stays in place. */
  function Judge(c: Config, st: State): Outcome
    requires Complete(c, st.header)
  {
    var opcode, fin, size := Opcode(st.header[0]), Fin(st.header[0]), Size(c, st.header);
    if Invalid(c, st.header) then Outcome(st, TooLarge)
    else if opcode == 0 && st.fragmented then
      var bytes := Saturate(st.messageBytes + size);
      if bytes > c.max then Outcome(st.(messageBytes := bytes), TooLarge)
      else Outcome(Admit(st, opcode, fin, size, bytes), Accepted)
    else if (opcode == 1 || opcode == 2) && !st.fragmented then
      if size > c.max then Outcome(st.(messageBytes := size), TooLarge)
      else Outcome(Admit(st, opcode, fin, size, size), Accepted)
    else if 8 <= opcode <= 10 && fin && size <= 125 then
      Outcome(Admit(st, opcode, fin, size, st.messageBytes), Accepted)
    else Outcome(st, Malformed)
  }

  function Step(c: Config, st: State, b: byte): Outcome {
    if st.remaining != 0 then Outcome(st.(remaining := st.remaining - 1), Accepted)
    else
      var next := st.(header := st.header + [b]);
      if Complete(c, next.header) then Judge(c, next) else Outcome(next, Accepted)
  }

  function Run(c: Config, st: State, bs: seq<byte>): Outcome
    decreases |bs|
  {
    if bs == [] then Outcome(st, Accepted) else
      var o := Step(c, st, bs[0]);
      if o.verdict.Accepted? then Run(c, o.state, bs[1..]) else o
  }

  lemma {:induction false} RunConcat(c: Config, st: State, a: seq<byte>, b: seq<byte>)
    ensures var o := Run(c, st, a); Run(c, st, a + b) == if o.verdict.Accepted? then Run(c, o.state, b) else o
    decreases |a|
  {
    hide Step;
    if a == [] {
      assert a + b == b;
    } else {
      assert (a + b)[0] == a[0] && (a + b)[1..] == a[1..] + b;
      var o := Step(c, st, a[0]);
      if o.verdict.Accepted? { RunConcat(c, o.state, a[1..], b); }
    }
  }

  /** Skipping payload in bulk is skipping it byte by byte. */
  lemma {:induction false} RunSkip(c: Config, st: State, bs: seq<byte>)
    requires |bs| <= st.remaining
    ensures Run(c, st, bs) == Outcome(st.(remaining := st.remaining - |bs|), Accepted)
    decreases |bs|
  {
    if bs != [] { RunSkip(c, st.(remaining := st.remaining - 1), bs[1..]); }
  }

  // ----- frames -----

  datatype Frame = Frame(fin: bool, opcode: nat, mask: seq<byte>, payload: seq<byte>)

  function Bytes(n: nat, width: nat): (s: seq<byte>)
    ensures |s| == width
  {
    if width == 0 then [] else Bytes(n / 256, width - 1) + [n % 256]
  }

  function Marker(size: nat): nat { if size < 126 then size else if size <= 65535 then 126 else 127 }

  /** The header of a frame, its length in the fewest bytes. */
  function Header(c: Config, f: Frame): seq<byte>
    requires f.opcode < 16
  {
    var size := |f.payload|;
    [(if f.fin then 128 else 0) + f.opcode, (if c.masked then 128 else 0) + Marker(size)]
    + Bytes(size, ExtendedLength(Marker(size))) + f.mask
  }

  predicate Control(f: Frame) { f.opcode >= 8 }

  predicate LegalFrame(c: Config, f: Frame) {
    && (f.opcode <= 2 || 8 <= f.opcode <= 10)
    && |f.mask| == (if c.masked then 4 else 0)
    && |f.payload| <= c.max && |f.payload| <= I64_MAX
    && (Control(f) ==> f.fin && |f.payload| <= 125)
  }

  function Encode(c: Config, f: Frame): seq<byte>
    requires LegalFrame(c, f)
  {
    Header(c, f) + f.payload
  }

  ghost predicate AllLegal(c: Config, fs: seq<Frame>) { forall i :: 0 <= i < |fs| ==> LegalFrame(c, fs[i]) }

  function EncodeAll(c: Config, fs: seq<Frame>): seq<byte>
    requires AllLegal(c, fs)
  {
    if fs == [] then [] else EncodeAll(c, fs[..|fs| - 1]) + Encode(c, fs[|fs| - 1])
  }

  /** The data frames, in order; control frames may stand between them. */
  function Data(fs: seq<Frame>): seq<Frame> {
    if fs == [] then [] else
      var last := fs[|fs| - 1];
      Data(fs[..|fs| - 1]) + (if Control(last) then [] else [last])
  }

  /** The bytes of the message that data frame `k` belongs to, up to and including that frame. */
  function MessageSize(data: seq<Frame>, k: nat): nat
    requires k < |data|
  {
    |data[k].payload| + (if data[k].opcode == 0 && k > 0 then MessageSize(data, k - 1) else 0)
  }

  /** Section 5.4: a frame continues a message exactly when the data frame before it was not final. */
  ghost predicate LegalFragments(data: seq<Frame>) {
    forall k :: 0 <= k < |data| ==> (data[k].opcode == 0 <==> InsideMessage(data, k))
  }

  /** A message is unfinished when data frame `k` starts. */
  predicate InsideMessage(data: seq<Frame>, k: nat)
    requires k < |data|
  {
    k > 0 && !data[k - 1].fin
  }

  /** No message outgrows the limit, unless the limit is the largest 64-bit number, where the sum saturates. */
  ghost predicate LegalMessages(c: Config, data: seq<Frame>) {
    forall k :: 0 <= k < |data| ==> Saturate(MessageSize(data, k)) <= c.max
  }

  ghost predicate Legal(c: Config, fs: seq<Frame>) {
    AllLegal(c, fs) && LegalFragments(Data(fs)) && LegalMessages(c, Data(fs))
  }

  predicate HasClose(fs: seq<Frame>) { exists i :: 0 <= i < |fs| && fs[i].opcode == 8 }

  // ----- the state that a sequence of whole frames leads to -----

  predicate OpenMessage(data: seq<Frame>) { data != [] && !data[|data| - 1].fin }

  function OpenBytes(data: seq<Frame>): nat {
    if OpenMessage(data) then MessageSize(data, |data| - 1) else 0
  }

  function After(fs: seq<Frame>): State {
    State(Saturate(|fs|), HasClose(fs), [], 0, Saturate(OpenBytes(Data(fs))), OpenMessage(Data(fs)))
  }

  // ----- headers -----

  function Pow256(k: nat): nat { if k == 0 then 1 else 256 * Pow256(k - 1) }

  lemma {:induction false} BigEndianOfBytes(n: nat, width: nat)
    requires n < Pow256(width)
    ensures BigEndian(Bytes(n, width)) == n
  {
    if width > 0 {
      BigEndianOfBytes(n / 256, width - 1);
      var s := Bytes(n, width);
      assert s[..|s| - 1] == Bytes(n / 256, width - 1);
    }
  }

  lemma {:induction false} BytesOfBigEndian(s: seq<byte>)
    ensures Bytes(BigEndian(s), |s|) == s && BigEndian(s) < Pow256(|s|)
  {
    if s != [] {
      var init := s[..|s| - 1];
      BytesOfBigEndian(init);
      assert BigEndian(s) / 256 == BigEndian(init) && BigEndian(s) % 256 == s[|s| - 1];
      assert init + [s[|s| - 1]] == s;
    }
  }

  lemma Widths()
    ensures Pow256(2) == 65536 && Pow256(8) == U64_MAX + 1
  {
    assert Pow256(2) == 256 * (256 * 1);
    assert Pow256(4) == 256 * (256 * Pow256(2));
    assert Pow256(6) == 256 * (256 * Pow256(4));
    assert Pow256(8) == 256 * (256 * Pow256(6));
  }

  /** The parts of a header that a frame of any legal size can have. */
  ghost predicate Shaped(c: Config, f: Frame) {
    f.opcode < 16 && |f.mask| == (if c.masked then 4 else 0) && |f.payload| <= U64_MAX
  }

  lemma HeaderSize(c: Config, f: Frame)
    requires Shaped(c, f)
    ensures var h := Header(c, f);
      Complete(c, h) && |h| == HeaderLength(c, h[1]) && Size(c, h) == |f.payload| && h[1] % 128 == Marker(|f.payload|)
  {
    hide BigEndian, Bytes;
    var h, size := Header(c, f), |f.payload|;
    var width := ExtendedLength(Marker(size));
    assert h[1] % 128 == Marker(size);
    assert h[2..2 + width] == Bytes(size, width);
    Widths();
    if width != 0 { BigEndianOfBytes(size, width); }
  }

  lemma HeaderBits(c: Config, f: Frame)
    requires Shaped(c, f)
    ensures var h := Header(c, f);
      |h| >= 2 && Opcode(h[0]) == f.opcode && Fin(h[0]) == f.fin && (h[0] / 16) % 8 == 0 && (h[1] >= 128) == c.masked
  {
    hide Bytes;
  }

  lemma HeaderValid(c: Config, f: Frame)
    requires Shaped(c, f)
    ensures Complete(c, Header(c, f))
    ensures Invalid(c, Header(c, f)) <==> |f.payload| > c.max || |f.payload| > I64_MAX
  {
    hide Bytes, Size, Header;
    HeaderSize(c, f);
    HeaderBits(c, f);
  }

  // ----- one more frame -----

  lemma DataSnoc(fs: seq<Frame>, f: Frame)
    ensures Data(fs + [f]) == Data(fs) + (if Control(f) then [] else [f])
  {
    assert (fs + [f])[..|fs|] == fs;
  }

  lemma {:induction false} SizeUnchanged(data: seq<Frame>, f: Frame, k: nat)
    requires k < |data|
    ensures MessageSize(data + [f], k) == MessageSize(data, k)
  {
    if k > 0 { SizeUnchanged(data, f, k - 1); }
  }

  /** When one more data frame keeps the sequence legal. */
  ghost predicate Follows(c: Config, data: seq<Frame>, f: Frame) {
    && (f.opcode == 0 <==> OpenMessage(data))
    && Saturate(|f.payload| + OpenBytes(data)) <= c.max
  }

  lemma LastSize(data: seq<Frame>, f: Frame)
    requires f.opcode == 0 <==> OpenMessage(data)
    ensures MessageSize(data + [f], |data|) == |f.payload| + OpenBytes(data)
  {
    if data != [] { SizeUnchanged(data, f, |data| - 1); }
  }

  lemma FragmentsFollow(data: seq<Frame>, f: Frame)
    requires LegalFragments(data)
    ensures LegalFragments(data + [f]) <==> (f.opcode == 0 <==> OpenMessage(data))
  {
    var all := data + [f];
    assert all[|data|] == f;
    if LegalFragments(all) {
      assert all[|data|].opcode == 0 <==> InsideMessage(all, |data|);
    }
    if f.opcode == 0 <==> OpenMessage(data) {
      forall k | 0 <= k < |all| ensures all[k].opcode == 0 <==> InsideMessage(all, k) {
        if k < |data| { assert all[k] == data[k] && InsideMessage(all, k) == InsideMessage(data, k); }
      }
    }
  }

  lemma DataFollows(c: Config, data: seq<Frame>, f: Frame)
    requires LegalFragments(data) && LegalMessages(c, data)
    ensures LegalFragments(data + [f]) && LegalMessages(c, data + [f]) <==> Follows(c, data, f)
  {
    hide MessageSize;
    var all := data + [f];
    FragmentsFollow(data, f);
    if f.opcode == 0 <==> OpenMessage(data) {
      LastSize(data, f);
      forall k | 0 <= k < |data| ensures MessageSize(all, k) == MessageSize(data, k) { SizeUnchanged(data, f, k); }
    }
  }

  lemma LegalSnoc(c: Config, fs: seq<Frame>, f: Frame)
    requires Legal(c, fs)
    ensures Legal(c, fs + [f]) <==> LegalFrame(c, f) && (Control(f) || Follows(c, Data(fs), f))
  {
    hide LegalFrame, LegalFragments, LegalMessages, Follows, AllLegal, Data, Control;
    DataSnoc(fs, f);
    assert Data(fs) + [] == Data(fs);
    DataFollows(c, Data(fs), f);
    AllLegalSnoc(c, fs, f);
  }

  lemma AllLegalSnoc(c: Config, fs: seq<Frame>, f: Frame)
    requires AllLegal(c, fs)
    ensures AllLegal(c, fs + [f]) <==> LegalFrame(c, f)
  {
    hide LegalFrame;
    var all := fs + [f];
    if AllLegal(c, all) { assert all[|fs|] == f; }
    assert forall i :: 0 <= i < |fs| ==> all[i] == fs[i];
  }

  lemma HasCloseSnoc(fs: seq<Frame>, f: Frame)
    ensures HasClose(fs + [f]) <==> HasClose(fs) || f.opcode == 8
  {
    assert (fs + [f])[|fs|] == f;
    assert forall i :: 0 <= i < |fs| ==> (fs + [f])[i] == fs[i];
  }

  lemma AfterControl(fs: seq<Frame>, f: Frame)
    requires Control(f)
    ensures After(fs + [f]) == After(fs).(frames := Saturate(|fs| + 1), closeSeen := HasClose(fs) || f.opcode == 8)
  {
    hide OpenMessage, OpenBytes, HasClose, Data;
    DataSnoc(fs, f);
    HasCloseSnoc(fs, f);
    assert Data(fs) + [] == Data(fs);
  }

  lemma AfterData(fs: seq<Frame>, f: Frame)
    requires !Control(f) && (f.opcode == 0 <==> OpenMessage(Data(fs)))
    ensures After(fs + [f]) == State(Saturate(|fs| + 1), HasClose(fs) || f.opcode == 8, [], 0,
                                     if f.fin then 0 else Saturate(|f.payload| + OpenBytes(Data(fs))), !f.fin)
  {
    hide HasClose, Data, MessageSize, OpenMessage, OpenBytes;
    DataSnoc(fs, f);
    HasCloseSnoc(fs, f);
    OpenSnoc(Data(fs), f);
  }

  lemma OpenSnoc(data: seq<Frame>, f: Frame)
    requires f.opcode == 0 <==> OpenMessage(data)
    ensures OpenMessage(data + [f]) == !f.fin
    ensures OpenBytes(data + [f]) == if f.fin then 0 else |f.payload| + OpenBytes(data)
  {
    hide MessageSize;
    assert (data + [f])[|data|] == f;
    LastSize(data, f);
  }

  /** A complete header is admitted exactly when its frame may come next, and then the counters are right. */
  ghost predicate JudgedRight(c: Config, fs: seq<Frame>, f: Frame, o: Outcome) {
    && (o.verdict.Accepted? <==> Legal(c, fs + [f]))
    && (o.verdict.Accepted? ==> o.state == After(fs + [f]).(remaining := |f.payload|))
  }

  lemma JudgeControl(c: Config, fs: seq<Frame>, f: Frame)
    requires Legal(c, fs) && Shaped(c, f) && Control(f)
    ensures Complete(c, Header(c, f)) && JudgedRight(c, fs, f, Judge(c, After(fs).(header := Header(c, f))))
  {
    HeaderSize(c, f);
    hide Header, Legal, HasClose, Data, OpenMessage, OpenBytes, Complete, Size, Opcode, Fin, Invalid;
    HeaderBits(c, f);
    HeaderValid(c, f);
    LegalSnoc(c, fs, f);
    AfterControl(fs, f);
  }

  lemma OpenBytesBounded(c: Config, fs: seq<Frame>)
    requires Legal(c, fs)
    ensures Saturate(OpenBytes(Data(fs))) <= c.max
  {
    hide Data, MessageSize;
  }

  /** A data frame where a message is open: it must continue it. */
  lemma JudgeContinuation(c: Config, fs: seq<Frame>, f: Frame)
    requires Legal(c, fs) && Shaped(c, f) && !Control(f) && c.max <= U64_MAX && OpenMessage(Data(fs))
    ensures Complete(c, Header(c, f)) && JudgedRight(c, fs, f, Judge(c, After(fs).(header := Header(c, f))))
  {
    HeaderSize(c, f);
    hide Header, Legal, HasClose, Data, OpenMessage, OpenBytes, Complete, Size, Opcode, Fin, Invalid;
    HeaderBits(c, f);
    HeaderValid(c, f);
    LegalSnoc(c, fs, f);
    OpenBytesBounded(c, fs);
    if f.opcode == 0 { AfterData(fs, f); }
  }

  /** A data frame where none is open: it must start one. */
  lemma JudgeFirst(c: Config, fs: seq<Frame>, f: Frame)
    requires Legal(c, fs) && Shaped(c, f) && !Control(f) && c.max <= U64_MAX && !OpenMessage(Data(fs))
    ensures Complete(c, Header(c, f)) && JudgedRight(c, fs, f, Judge(c, After(fs).(header := Header(c, f))))
  {
    HeaderSize(c, f);
    hide Header, Legal, HasClose, Data, OpenMessage, OpenBytes, Complete, Size, Opcode, Fin, Invalid;
    HeaderBits(c, f);
    HeaderValid(c, f);
    LegalSnoc(c, fs, f);
    NotOpen(Data(fs));
    if f.opcode != 0 { AfterData(fs, f); }
  }

  lemma JudgeData(c: Config, fs: seq<Frame>, f: Frame)
    requires Legal(c, fs) && Shaped(c, f) && !Control(f) && c.max <= U64_MAX
    ensures Complete(c, Header(c, f)) && JudgedRight(c, fs, f, Judge(c, After(fs).(header := Header(c, f))))
  {
    hide JudgedRight, Judge, Header, After, Legal, Data, OpenMessage, Control;
    if OpenMessage(Data(fs)) { JudgeContinuation(c, fs, f); } else { JudgeFirst(c, fs, f); }
  }

  lemma NotOpen(data: seq<Frame>)
    ensures !OpenMessage(data) ==> OpenBytes(data) == 0
  {
  }

  lemma JudgeFrame(c: Config, fs: seq<Frame>, f: Frame)
    requires Legal(c, fs) && Shaped(c, f) && c.max <= U64_MAX
    ensures Complete(c, Header(c, f)) && JudgedRight(c, fs, f, Judge(c, After(fs).(header := Header(c, f))))
  {
    hide JudgedRight, Judge, Header, After, Legal;
    if Control(f) { JudgeControl(c, fs, f); } else { JudgeData(c, fs, f); }
  }

  // ----- every legal sequence is accepted -----

  ghost predicate BetweenFrames(st: State) { st.header == [] && st.remaining == 0 }

  /** The bytes of a header before its last are only collected. */
  lemma {:induction false} RunHeaderPart(c: Config, st: State, h: seq<byte>, k: nat)
    requires BetweenFrames(st) && |h| >= 2 && k < |h| == HeaderLength(c, h[1])
    ensures Run(c, st, h[..k]) == Outcome(st.(header := h[..k]), Accepted)
  {
    hide Judge;
    if k > 0 {
      RunHeaderPart(c, st, h, k - 1);
      assert h[..k] == h[..k - 1] + [h[k - 1]];
      RunConcat(c, st, h[..k - 1], [h[k - 1]]);
      RunOne(c, st.(header := h[..k - 1]), h[k - 1]);
      assert !Complete(c, h[..k]);
    }
  }

  lemma RunOne(c: Config, st: State, b: byte)
    ensures Run(c, st, [b]) == Step(c, st, b)
  {
    assert [b][1..] == [];
  }

  lemma RunHeader(c: Config, st: State, h: seq<byte>)
    requires BetweenFrames(st) && Complete(c, h) && |h| == HeaderLength(c, h[1])
    ensures Run(c, st, h) == Judge(c, st.(header := h))
  {
    hide Judge, Run;
    var k := |h| - 1;
    RunHeaderPart(c, st, h, k);
    assert h == h[..k] + [h[k]];
    RunConcat(c, st, h[..k], [h[k]]);
    RunOne(c, st.(header := h[..k]), h[k]);
  }

  lemma LegalIsShaped(c: Config, f: Frame)
    requires LegalFrame(c, f)
    ensures Shaped(c, f)
  {
  }

  lemma RunFrame(c: Config, fs: seq<Frame>, f: Frame)
    requires c.max <= U64_MAX && Legal(c, fs) && Legal(c, fs + [f])
    ensures LegalFrame(c, f) && Run(c, After(fs), Encode(c, f)) == Outcome(After(fs + [f]), Accepted)
  {
    assert LegalFrame(c, f) by { assert (fs + [f])[|fs|] == f; }
    hide Run, Judge, Header, Complete, Legal, LegalFrame, Data, OpenMessage, OpenBytes, HasClose, Step;
    LegalIsShaped(c, f);
    HeaderSize(c, f);
    JudgeFrame(c, fs, f);
    RunHeader(c, After(fs), Header(c, f));
    RunConcat(c, After(fs), Header(c, f), f.payload);
    RunSkip(c, After(fs + [f]).(remaining := |f.payload|), f.payload);
  }

  lemma LegalPrefix(c: Config, fs: seq<Frame>, f: Frame)
    requires Legal(c, fs + [f])
    ensures Legal(c, fs)
  {
    var all := fs + [f];
    assert forall i :: 0 <= i < |fs| ==> fs[i] == all[i];
    assert AllLegal(c, fs);
    DataSnoc(fs, f);
    if !Control(f) {
      DataPrefix(c, Data(fs), f);
    } else {
      assert Data(fs) + [] == Data(fs);
    }
  }

  lemma DataPrefix(c: Config, data: seq<Frame>, f: Frame)
    requires LegalFragments(data + [f]) && LegalMessages(c, data + [f])
    ensures LegalFragments(data) && LegalMessages(c, data)
  {
    hide MessageSize;
    var all := data + [f];
    forall k | 0 <= k < |data| ensures data[k].opcode == 0 <==> InsideMessage(data, k) {
      assert all[k] == data[k] && InsideMessage(all, k) == InsideMessage(data, k);
    }
    forall k | 0 <= k < |data| ensures Saturate(MessageSize(data, k)) <= c.max { SizeUnchanged(data, f, k); }
  }

  lemma {:induction false} RunFrames(c: Config, fs: seq<Frame>)
    requires c.max <= U64_MAX && Legal(c, fs)
    ensures Run(c, INITIAL, EncodeAll(c, fs)) == Outcome(After(fs), Accepted)
  {
    if fs == [] {
      assert !HasClose(fs);
    } else {
      var init, f := fs[..|fs| - 1], fs[|fs| - 1];
      assert fs == init + [f];
      hide Run, Encode, LegalFragments, LegalMessages, After;
      LegalPrefix(c, init, f);
      RunFrames(c, init);
      RunFrame(c, init, f);
      RunConcat(c, INITIAL, EncodeAll(c, init), Encode(c, f));
    }
  }

  // ----- everything accepted is a legal sequence, cut off somewhere -----

  /** `part` of a header, or `read` bytes into the payload of the last frame. */
  datatype Progress =
    | InHeader(whole: seq<Frame>, part: seq<byte>)
    | InPayload(whole: seq<Frame>, last: Frame, read: nat)

  ghost predicate Follow(c: Config, st: State, p: Progress) {
    match p
    case InHeader(whole, part) =>
      Legal(c, whole) && st == After(whole).(header := part) && !Complete(c, part)
    case InPayload(whole, last, read) =>
      && Legal(c, whole) && Legal(c, whole + [last]) && read < |last.payload|
      && st == After(whole + [last]).(remaining := |last.payload| - read)
  }

  function ProgressText(c: Config, p: Progress): seq<byte>
    requires AllLegal(c, p.whole) && (p.InPayload? ==> LegalFrame(c, p.last) && p.read <= |p.last.payload|)
  {
    match p
    case InHeader(whole, part) => EncodeAll(c, whole) + part
    case InPayload(whole, last, read) => EncodeAll(c, whole) + Header(c, last) + last.payload[..read]
  }

  lemma FollowIsLegal(c: Config, st: State, p: Progress)
    requires Follow(c, st, p)
    ensures AllLegal(c, p.whole) && (p.InPayload? ==> LegalFrame(c, p.last) && p.read <= |p.last.payload|)
  {
    if p.InPayload? { assert (p.whole + [p.last])[|p.whole|] == p.last; }
  }

  function Zeros(n: nat): (s: seq<byte>)
    ensures |s| == n
  {
    seq(n, _ => 0)
  }

  /** The frame that a complete, valid header announces, its payload not yet known. */
  function Announced(c: Config, h: seq<byte>): Frame
    requires Complete(c, h) && |h| == HeaderLength(c, h[1])
  {
    Frame(Fin(h[0]), Opcode(h[0]), h[2 + ExtendedLength(h[1] % 128)..], Zeros(Size(c, h)))
  }

  lemma SizeMarker(c: Config, h: seq<byte>)
    requires Complete(c, h) && |h| == HeaderLength(c, h[1]) && !Invalid(c, h)
    ensures Marker(Size(c, h)) == h[1] % 128 && Size(c, h) <= U64_MAX
    ensures Bytes(Size(c, h), ExtendedLength(h[1] % 128)) == h[2..2 + ExtendedLength(h[1] % 128)]
  {
    hide BigEndian, Bytes, Pow256;
    Widths();
    var marker := h[1] % 128;
    if marker == 126 {
      BytesOfBigEndian(h[2..4]);
    } else if marker == 127 {
      BytesOfBigEndian(h[2..10]);
    } else {
      NoBytes(marker);
      assert h[2..2] == [];
    }
  }

  lemma NoBytes(n: nat)
    ensures Bytes(n, 0) == []
  {
  }

  lemma AnnouncedHeader(c: Config, h: seq<byte>)
    requires Complete(c, h) && |h| == HeaderLength(c, h[1]) && !Invalid(c, h)
    ensures Shaped(c, Announced(c, h)) && Header(c, Announced(c, h)) == h
  {
    SizeMarker(c, h);
    hide Bytes, Size, BigEndian;
    var f, width := Announced(c, h), ExtendedLength(h[1] % 128);
    assert h[0] == (if f.fin then 128 else 0) + f.opcode;
    assert h[1] == (if c.masked then 128 else 0) + Marker(|f.payload|);
    assert h == [h[0], h[1]] + h[2..2 + width] + h[2 + width..];
  }

  lemma CompleteExactly(c: Config, part: seq<byte>, b: byte)
    requires !Complete(c, part) && Complete(c, part + [b])
    ensures |part + [b]| == HeaderLength(c, (part + [b])[1])
  {
  }

  lemma RejectsInvalid(c: Config, st: State)
    requires Complete(c, st.header) && Judge(c, st).verdict.Accepted?
    ensures !Invalid(c, st.header)
  {
  }

  /** The last byte of a header. */
  lemma FollowHeaderEnd(c: Config, whole: seq<Frame>, part: seq<byte>, b: byte) returns (p: Progress)
    requires c.max <= U64_MAX && Legal(c, whole) && !Complete(c, part) && Complete(c, part + [b])
    requires Judge(c, After(whole).(header := part + [b])).verdict.Accepted?
    ensures var o := Judge(c, After(whole).(header := part + [b]));
      && Follow(c, o.state, p) && AllLegal(c, p.whole) && AllLegal(c, whole)
      && (p.InPayload? ==> LegalFrame(c, p.last) && p.read <= |p.last.payload|)
      && ProgressText(c, p) == EncodeAll(c, whole) + (part + [b])
  {
    hide Judge, Header, Data, LegalFragments, LegalMessages, After, EncodeAll, Shaped, Invalid, Announced;
    var h := part + [b];
    CompleteExactly(c, part, b);
    RejectsInvalid(c, After(whole).(header := h));
    AnnouncedHeader(c, h);
    var f := Announced(c, h);
    JudgeFrame(c, whole, f);
    assert LegalFrame(c, f) by { assert (whole + [f])[|whole|] == f; }
    if f.payload == [] {
      p := InHeader(whole + [f], []);
      EncodeSnoc(c, whole, f);
      assert EncodeAll(c, whole + [f]) + [] == EncodeAll(c, whole) + h;
      AfterBetween(whole + [f]);
    } else {
      p := InPayload(whole, f, 0);
      assert f.payload[..0] == [];
    }
  }

  lemma AfterBetween(fs: seq<Frame>)
    ensures After(fs).header == [] && After(fs).remaining == 0
    ensures After(fs) == After(fs).(header := []) && After(fs) == After(fs).(remaining := 0)
  {
  }

  lemma EncodeSnoc(c: Config, whole: seq<Frame>, f: Frame)
    requires AllLegal(c, whole) && LegalFrame(c, f)
    ensures AllLegal(c, whole + [f]) && EncodeAll(c, whole + [f]) == EncodeAll(c, whole) + (Header(c, f) + f.payload)
  {
    assert (whole + [f])[..|whole|] == whole;
  }

  lemma FollowPayload(c: Config, whole: seq<Frame>, last: Frame, read: nat, b: byte) returns (p: Progress)
    requires Legal(c, whole) && Legal(c, whole + [last]) && LegalFrame(c, last) && read < |last.payload|
    ensures Follow(c, After(whole + [last]).(remaining := |last.payload| - read - 1), p)
    ensures AllLegal(c, p.whole) && (p.InPayload? ==> LegalFrame(c, p.last) && p.read <= |p.last.payload|)
    ensures ProgressText(c, p) == EncodeAll(c, whole) + Header(c, last) + last.payload[..read] + [b]
  {
    hide Header, Legal, After, EncodeAll;
    var f := last.(payload := last.payload[read := b]);
    SamePayloadLength(c, whole, last, f);
    LegalIsAll(c, whole);
    PayloadText(EncodeAll(c, whole) + Header(c, last), last.payload, read, b);
    if read + 1 == |f.payload| {
      p := InHeader(whole + [f], []);
      FollowLastByte(c, whole, f);
      assert f.payload[..read + 1] == f.payload;
    } else {
      p := InPayload(whole, f, read + 1);
    }
  }

  lemma LegalIsAll(c: Config, fs: seq<Frame>)
    requires Legal(c, fs)
    ensures AllLegal(c, fs)
  {
  }

  lemma PayloadText(head: seq<byte>, payload: seq<byte>, read: nat, b: byte)
    requires read < |payload|
    ensures head + payload[read := b][..read + 1] == head + payload[..read] + [b]
  {
    assert payload[read := b][..read + 1] == payload[..read] + [b];
  }

  lemma FollowLastByte(c: Config, whole: seq<Frame>, f: Frame)
    requires Legal(c, whole) && Legal(c, whole + [f]) && LegalFrame(c, f)
    ensures Follow(c, After(whole + [f]).(remaining := 0), InHeader(whole + [f], []))
    ensures AllLegal(c, whole) && AllLegal(c, whole + [f])
    ensures ProgressText(c, InHeader(whole + [f], [])) == EncodeAll(c, whole) + Header(c, f) + f.payload
  {
    hide Header, LegalFragments, LegalMessages, After;
    EncodeSnoc(c, whole, f);
    AfterBetween(whole + [f]);
    hide EncodeAll;
    assert EncodeAll(c, whole) + (Header(c, f) + f.payload) + [] == EncodeAll(c, whole) + Header(c, f) + f.payload;
  }

  /** Only the length of a payload matters to the limiter. */
  lemma SamePayloadLength(c: Config, whole: seq<Frame>, f: Frame, g: Frame)
    requires Legal(c, whole) && Legal(c, whole + [f]) && LegalFrame(c, f)
    requires g == f.(payload := g.payload) && |g.payload| == |f.payload|
    ensures Legal(c, whole + [g]) && LegalFrame(c, g) && After(whole + [g]) == After(whole + [f])
        && Header(c, g) == Header(c, f)
  {
    hide Data, HasClose, OpenMessage, OpenBytes, Legal, After;
    LegalSnoc(c, whole, f);
    LegalSnoc(c, whole, g);
    if Control(f) {
      AfterControl(whole, f);
      AfterControl(whole, g);
    } else {
      AfterData(whole, f);
      AfterData(whole, g);
    }
  }

  lemma FollowByte(c: Config, st: State, p: Progress, b: byte) returns (q: Progress)
    requires c.max <= U64_MAX && Follow(c, st, p) && Step(c, st, b).verdict.Accepted?
    ensures AllLegal(c, p.whole) && (p.InPayload? ==> LegalFrame(c, p.last) && p.read <= |p.last.payload|)
    ensures AllLegal(c, q.whole) && (q.InPayload? ==> LegalFrame(c, q.last) && q.read <= |q.last.payload|)
    ensures Follow(c, Step(c, st, b).state, q) && ProgressText(c, q) == ProgressText(c, p) + [b]
  {
    hide Judge, Header, Legal, LegalFrame, EncodeAll, Complete, Data, OpenMessage, OpenBytes, HasClose;
    FollowIsLegal(c, st, p);
    match p
    case InHeader(whole, part) =>
      assert EncodeAll(c, whole) + (part + [b]) == EncodeAll(c, whole) + part + [b];
      if Complete(c, part + [b]) {
        q := FollowHeaderEnd(c, whole, part, b);
      } else {
        q := InHeader(whole, part + [b]);
      }
    case InPayload(whole, last, read) =>
      q := FollowPayload(c, whole, last, read, b);
  }

  lemma {:induction false} FollowBytes(c: Config, bs: seq<byte>) returns (p: Progress)
    requires c.max <= U64_MAX && Run(c, INITIAL, bs).verdict.Accepted?
    ensures AllLegal(c, p.whole) && (p.InPayload? ==> LegalFrame(c, p.last) && p.read <= |p.last.payload|)
    ensures Follow(c, Run(c, INITIAL, bs).state, p) && ProgressText(c, p) == bs
  {
    if bs == [] {
      p := InHeader([], []);
      assert !HasClose([]);
    } else {
      hide Step, Follow, ProgressText, AllLegal, LegalFrame;
      var init, last := bs[..|bs| - 1], bs[|bs| - 1];
      assert bs == init + [last];
      RunConcat(c, INITIAL, init, [last]);
      p := FollowBytes(c, init);
      RunOne(c, Run(c, INITIAL, init).state, last);
      p := FollowByte(c, Run(c, INITIAL, init).state, p, last);
    }
  }

  // ----- the promise -----

  ghost predicate IsStream(c: Config, fs: seq<Frame>, bs: seq<byte>) { Legal(c, fs) && EncodeAll(c, fs) == bs }

  /** A stream is accepted and ends between frames exactly when it is a legal sequence of whole frames. */
  lemma AcceptsExactlyLegalStreams(c: Config, bs: seq<byte>)
    requires c.max <= U64_MAX
    ensures var o := Run(c, INITIAL, bs);
      o.verdict.Accepted? && BetweenFrames(o.state) <==> exists fs :: IsStream(c, fs, bs)
  {
    hide Run, EncodeAll, LegalFragments, LegalMessages, Header;
    var o := Run(c, INITIAL, bs);
    if o.verdict.Accepted? && BetweenFrames(o.state) {
      var p := FollowBytes(c, bs);
      assert p.InHeader?;
      assert EncodeAll(c, p.whole) + [] == EncodeAll(c, p.whole);
      assert IsStream(c, p.whole, bs);
    }
    forall fs | IsStream(c, fs, bs) ensures o.verdict.Accepted? && BetweenFrames(o.state) {
      RunFrames(c, fs);
      AfterBetween(fs);
    }
  }

  /** The counters after a legal stream are those of the frames it encodes. */
  lemma CountsFrames(c: Config, fs: seq<Frame>)
    requires c.max <= U64_MAX && Legal(c, fs) && |fs| <= U64_MAX
    ensures var st := Run(c, INITIAL, EncodeAll(c, fs)).state; st.frames == |fs| && st.closeSeen == HasClose(fs)
  {
    hide Run, EncodeAll, LegalFragments, LegalMessages;
    RunFrames(c, fs);
  }

  /** Below the largest 64-bit limit, a legal message is at most the limit. */
  lemma MessagesAreBounded(c: Config, fs: seq<Frame>, k: nat)
    requires Legal(c, fs) && k < |Data(fs)| && c.max < U64_MAX
    ensures MessageSize(Data(fs), k) <= c.max
  {
    hide MessageSize, Data;
    assert Saturate(MessageSize(Data(fs), k)) <= c.max;
  }

  /** Three fragments of one message, each as long as a frame may be. */
  function Oversized(mask: seq<byte>): seq<Frame> {
    [Frame(false, 1, mask, Zeros(I64_MAX)), Frame(false, 0, mask, Zeros(I64_MAX)), Frame(true, 0, mask, Zeros(I64_MAX))]
  }

  /** At the largest 64-bit limit the saturating sum cannot exceed it: a message of 3 * (2^63 - 1) bytes is accepted. */
  lemma SaturatedLimitIsVoid(c: Config, mask: seq<byte>)
    requires c.max == U64_MAX && |mask| == (if c.masked then 4 else 0)
    ensures var fs := Oversized(mask);
      && Legal(c, fs) && Run(c, INITIAL, EncodeAll(c, fs)) == Outcome(After(fs), Accepted) && BetweenFrames(After(fs))
      && Data(fs) == fs && MessageSize(fs, 2) > U64_MAX
  {
    hide Run, EncodeAll, After, Data;
    var fs := Oversized(mask);
    ThreeAreData(fs);
    assert MessageSize(fs, 0) == I64_MAX;
    assert MessageSize(fs, 1) == 2 * I64_MAX;
    assert MessageSize(fs, 2) == 3 * I64_MAX;
    assert Legal(c, fs);
    RunFrames(c, fs);
    AfterBetween(fs);
  }

  /** Every message of every legal sequence is within the limit. */
  ghost predicate LimitBinds(c: Config) {
    forall fs, k: nat :: Legal(c, fs) && k < |Data(fs)| ==> MessageSize(Data(fs), k) <= c.max
  }

  /** The limit bounds messages if and only if it is not the largest 64-bit number. */
  lemma LimitBindsExactly(c: Config)
    requires c.max <= U64_MAX
    ensures LimitBinds(c) <==> c.max < U64_MAX
  {
    hide Legal, Data, MessageSize, Run, EncodeAll, After;
    if c.max < U64_MAX {
      forall fs, k: nat | Legal(c, fs) && k < |Data(fs)| ensures MessageSize(Data(fs), k) <= c.max {
        MessagesAreBounded(c, fs, k);
      }
    } else {
      var mask := Zeros(if c.masked then 4 else 0);
      SaturatedLimitIsVoid(c, mask);
      assert |Data(Oversized(mask))| == 3;
      assert MessageSize(Data(Oversized(mask)), 2) > c.max;
    }
  }

  lemma ThreeAreData(data: seq<Frame>)
    requires |data| == 3 && !Control(data[0]) && !Control(data[1]) && !Control(data[2])
    ensures Data(data) == data
  {
    hide Data;
    var a, b := [data[0]], [data[0], data[1]];
    assert Data([]) == [] by { NoData(); }
    DataSnoc([], data[0]);
    assert [] + [data[0]] == a;
    DataSnoc(a, data[1]);
    assert a + [data[1]] == b;
    DataSnoc(b, data[2]);
    assert b + [data[2]] == data;
  }

  lemma NoData()
    ensures Data([]) == []
  {
  }

  // ----- which rejection -----

  /** The size that a complete header announces. */
  ghost predicate Announces(h: seq<byte>, size: nat)
    requires |h| >= 2
  {
    var marker := h[1] % 128;
    if marker < 126 then size == marker
    else if marker == 126 then |h| >= 4 && size == BigEndian(h[2..4])
    else |h| >= 10 && size == BigEndian(h[2..10])
  }

  /** A reserved bit, the wrong mask bit, a size that is too large, or one written in more bytes than it needs. */
  ghost predicate BadHeader(c: Config, h: seq<byte>, size: nat)
    requires |h| >= 2
  {
    || (h[0] / 16) % 8 != 0 || (h[1] >= 128) != c.masked || size > c.max || size > 0x7FFF_FFFF_FFFF_FFFF
    || (h[1] % 128 == 126 && size < 126) || (h[1] % 128 == 127 && size <= 65535)
  }

  /** A data frame in its right place, or a control frame that is final and short. */
  ghost predicate InOrder(open: bool, opcode: nat, fin: bool, size: nat) {
    if opcode == 0 then open
    else if opcode == 1 || opcode == 2 then !open
    else 8 <= opcode <= 10 && fin && size <= 125
  }

  /**
   After a legal sequence, a header is refused as too large exactly if it is bad in itself, or its frame is in order and
   would make a continued message too long, and as malformed exactly if it is good but its frame is out of order.
   */
  lemma RefusalsAreToldApart(c: Config, fs: seq<Frame>, h: seq<byte>, size: nat)
    requires c.max <= U64_MAX && Legal(c, fs) && Complete(c, h) && Announces(h, size)
    ensures var open, sofar := OpenMessage(Data(fs)), OpenBytes(Data(fs));
      var opcode, fin := h[0] % 16, h[0] >= 128;
      var verdict := Judge(c, After(fs).(header := h)).verdict;
      && (verdict == TooLarge <==>
            || BadHeader(c, h, size)
            || (opcode == 0 && open && Saturate(Saturate(sofar) + size) > c.max))
      && (verdict == Malformed <==> !BadHeader(c, h, size) && !InOrder(open, opcode, fin, size))
  {
    hide Data, OpenMessage, OpenBytes, HasClose, Legal;
    AnnouncedSize(c, h, size);
    hide Size;
  }

  lemma AnnouncedSize(c: Config, h: seq<byte>, size: nat)
    requires Complete(c, h) && Announces(h, size)
    ensures Size(c, h) == size
  {
    hide BigEndian;
  }

  lemma EndsExactly(c: Config, h: seq<byte>)
    requires Complete(c, h) && !Complete(c, h[..|h| - 1])
    ensures |h| == HeaderLength(c, h[1])
  {
  }

  /** The bytes that lead there: a legal stream, and then all but the last byte of the header. */
  lemma RefusedAtItsHeader(c: Config, fs: seq<Frame>, h: seq<byte>)
    requires c.max <= U64_MAX && Legal(c, fs) && Complete(c, h) && !Complete(c, h[..|h| - 1])
    ensures Run(c, INITIAL, EncodeAll(c, fs) + h) == Judge(c, After(fs).(header := h))
  {
    hide Judge, Legal, EncodeAll, Run, Data, OpenMessage, OpenBytes, HasClose, Complete;
    LegalIsAll(c, fs);
    RunFrames(c, fs);
    RunConcat(c, INITIAL, EncodeAll(c, fs), h);
    AfterBetween(fs);
    EndsExactly(c, h);
    RunHeader(c, After(fs), h);
  }

  // ----- rejection is final -----

  /** A complete header that is refused. */
  ghost predicate Stuck(c: Config, st: State) {
    st.remaining == 0 && Complete(c, st.header) && !Judge(c, st).verdict.Accepted?
  }

  lemma SameHeader(c: Config, h: seq<byte>, b: byte)
    requires Complete(c, h)
    ensures Complete(c, h + [b]) && Size(c, h + [b]) == Size(c, h) && Invalid(c, h + [b]) == Invalid(c, h)
    ensures (h + [b])[0] == h[0]
  {
    hide BigEndian;
    var g := h + [b];
    var width := ExtendedLength(g[1] % 128);
    assert g[2..2 + width] == h[2..2 + width];
  }

  lemma SameVerdict(c: Config, st: State, b: byte)
    requires Complete(c, st.header)
    ensures Complete(c, st.header + [b])
    ensures Judge(c, st.(header := st.header + [b])).verdict == Judge(c, st).verdict
  {
    hide Complete, Size, Invalid;
    SameHeader(c, st.header, b);
  }

  lemma JudgedAgain(c: Config, st: State)
    requires c.max <= U64_MAX && Complete(c, st.header) && !Judge(c, st).verdict.Accepted?
    ensures var next := Judge(c, st).state;
      next.header == st.header && next.remaining == st.remaining && !Judge(c, next).verdict.Accepted?
  {
    hide Complete, Size;
  }

  lemma RejectionSticks(c: Config, st: State, b: byte)
    requires c.max <= U64_MAX && !Step(c, st, b).verdict.Accepted?
    ensures Stuck(c, Step(c, st, b).state)
  {
    hide Judge, Complete;
    JudgedAgain(c, st.(header := st.header + [b]));
  }

  lemma StuckRejects(c: Config, st: State, b: byte)
    requires Stuck(c, st)
    ensures !Step(c, st, b).verdict.Accepted?
  {
    hide Judge, Complete;
    SameVerdict(c, st, b);
  }

  lemma {:induction false} RejectedRunSticks(c: Config, st: State, bs: seq<byte>)
    requires c.max <= U64_MAX && !Run(c, st, bs).verdict.Accepted?
    ensures Stuck(c, Run(c, st, bs).state)
    decreases |bs|
  {
    hide Step, Stuck;
    var o := Step(c, st, bs[0]);
    if o.verdict.Accepted? { RejectedRunSticks(c, o.state, bs[1..]); } else { RejectionSticks(c, st, bs[0]); }
  }

  /** Once a feed was refused, every further feed of at least one byte is refused. */
  lemma RejectionIsFinal(c: Config, st: State, bs: seq<byte>, more: seq<byte>)
    requires c.max <= U64_MAX && !Run(c, st, bs).verdict.Accepted? && more != []
    ensures !Run(c, Run(c, st, bs).state, more).verdict.Accepted?
  {
    hide Step, Stuck;
    RejectedRunSticks(c, st, bs);
    StuckRejects(c, Run(c, st, bs).state, more[0]);
  }

  /** Until a rejection at most 13 header bytes wait for the next, so the buffer never needs more than 14. */
  lemma HeaderIsBounded(c: Config, st: State, bs: seq<byte>)
    requires !Complete(c, st.header)
    ensures Run(c, st, bs).verdict.Accepted? ==>
              !Complete(c, Run(c, st, bs).state.header) && |Run(c, st, bs).state.header| <= 13
    decreases |bs|
  {
    if bs != [] {
      var o := Step(c, st, bs[0]);
      if o.verdict.Accepted? {
        assert !Complete(c, o.state.header);
        HeaderIsBounded(c, o.state, bs[1..]);
      }
    }
  }

  // ----- the object -----

  class FrameLimit {
    const max: nat
    const masked: bool
    var frames: nat
    var closeSeen: bool
    var header: seq<byte>
    var remaining: nat
    var messageBytes: nat
    var fragmented: bool

    constructor (max: nat, masked: bool)
      ensures this.max == max && this.masked == masked && Now() == INITIAL
    {
      this.max, this.masked := max, masked;
      frames, closeSeen, header, remaining, messageBytes, fragmented := 0, false, [], 0, 0, false;
    }

    ghost function Now(): State
      reads this
    {
      State(frames, closeSeen, header, remaining, messageBytes, fragmented)
    }

    function Limits(): Config { Config(max, masked) }

    /** The size a complete header announces. */
    method ReadSize() returns (size: nat)
      requires Complete(Limits(), header)
      ensures size == Size(Limits(), header)
    {
      var marker := header[1] % 128;
      var extended := ExtendedLength(marker);
      size := if extended == 0 then marker else 0;
      ghost var length := header[2..2 + extended];
      for i := 0 to extended
        invariant extended != 0 ==> size == BigEndian(length[..i])
        invariant extended == 0 ==> size == marker
      {
        size := size * 256 + header[2 + i];
        assert length[..i + 1][..i] == length[..i];
      }
      assert length[..extended] == length;
    }

    /** A complete header is admitted or refused. */
    method FinishHeader() returns (verdict: Verdict)
      requires Complete(Limits(), header)
      modifies this
      ensures Outcome(Now(), verdict) == Judge(Limits(), old(Now()))
    {
      hide BigEndian;
      var size := ReadSize();
      var opcode, fin := header[0] % 16, header[0] >= 128;
      if Invalid(Limits(), header) { return TooLarge; }
      if opcode == 0 && fragmented {
        messageBytes := Saturate(messageBytes + size);
      } else if (opcode == 1 || opcode == 2) && !fragmented {
        messageBytes := size;
      } else if !(8 <= opcode <= 10 && fin && size <= 125) {
        return Malformed;
      }
      if opcode < 8 {
        if messageBytes > max { return TooLarge; }
        fragmented := !fin;
        if fin { messageBytes := 0; }
      }
      frames := Saturate(frames + 1);
      closeSeen := closeSeen || opcode == 8;
      remaining := size;
      header := [];
      return Accepted;
    }

    /** Any chunk is read as its bytes would be one at a time, though payloads are skipped in bulk. */
    method Feed(bytes: seq<byte>) returns (verdict: Verdict)
      modifies this
      ensures Outcome(Now(), verdict) == Run(Limits(), old(Now()), bytes)
    {
      hide Run, Judge, Complete;
      ghost var was := Now();
      var i := 0;
      RunNothing(Limits(), was);
      while i < |bytes|
        invariant 0 <= i <= |bytes|
        invariant Run(Limits(), was, bytes[..i]) == Outcome(Now(), Accepted)
      {
        if remaining != 0 {
          var skip := Min(remaining, |bytes| - i);
          RunSkip(Limits(), Now(), bytes[i..i + skip]);
          RunMore(Limits(), was, bytes, i, i + skip);
          remaining := remaining - skip;
          i := i + skip;
          continue;
        }
        RunMore(Limits(), was, bytes, i, i + 1);
        RunOne(Limits(), Now(), bytes[i]);
        assert bytes[i..i + 1] == [bytes[i]];
        header := header + [bytes[i]];
        i := i + 1;
        if !Complete(Limits(), header) { continue; }
        verdict := FinishHeader();
        if !verdict.Accepted? {
          RunMore(Limits(), was, bytes, i, |bytes|);
          assert bytes[..|bytes|] == bytes;
          return;
        }
      }
      assert bytes[..i] == bytes;
      return Accepted;
    }
  }

  lemma RunNothing(c: Config, st: State)
    ensures Run(c, st, []) == Outcome(st, Accepted)
  {
  }

  lemma RunMore(c: Config, st: State, bs: seq<byte>, i: nat, j: nat)
    requires i <= j <= |bs|
    ensures var o := Run(c, st, bs[..i]);
      Run(c, st, bs[..j]) == if o.verdict.Accepted? then Run(c, o.state, bs[i..j]) else o
  {
    assert bs[..j] == bs[..i] + bs[i..j];
    RunConcat(c, st, bs[..i], bs[i..j]);
  }
}
