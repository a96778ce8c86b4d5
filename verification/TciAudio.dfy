/** One subscribed client's RX audio: the 48 kHz tap is averaged down to the client's rate,
    gathered into packets of the size it asked for and spread over its channels. */
module TciAudio {
  import opened Arith
  import opened SpscRing

  const TAP_RATE := 48000
  const BUFFER := 2048

  // ---- the decimator's stream, sample by sample of the tap ------------------------------

  /** The sum of `s[from..to]`. */
  function Sum(s: seq<real>, from: nat, to: nat): real
    requires to <= |s|
  {
    if to <= from then 0.0 else Sum(s, from, to - 1) + s[to - 1]
  }

  /** The first `m` output frames: frame `j` is the mean of the `dec` samples from `j*dec` on. */
  function Means(s: seq<real>, dec: nat, m: nat): (r: seq<real>)
    requires dec > 0 && m * dec <= |s|
    ensures |r| == m
  {
    if m == 0 then [] else
      assert (m - 1) * dec == m * dec - dec;
      Means(s, dec, m - 1) + [Sum(s, (m - 1) * dec, m * dec) / dec as real]
  }

  lemma {:induction false} FrameIsTheMean(s: seq<real>, dec: nat, m: nat, j: nat)
    requires dec > 0 && m * dec <= |s| && j < m
    ensures (j + 1) * dec <= m * dec
    ensures Means(s, dec, m)[j] == Sum(s, j * dec, (j + 1) * dec) / dec as real
  {
    assert (m - 1) * dec == m * dec - dec;
    if j < m - 1 {
      FrameIsTheMean(s, dec, m - 1, j);
    }
  }

  lemma {:induction false} SumOfPrefix(s: seq<real>, v: real, from: nat, to: nat)
    requires to <= |s|
    ensures Sum(s + [v], from, to) == Sum(s, from, to)
  {
    if from < to {
      SumOfPrefix(s, v, from, to - 1);
    }
  }

  lemma {:induction false} MeansOfPrefix(s: seq<real>, v: real, dec: nat, m: nat)
    requires dec > 0 && m * dec <= |s|
    ensures Means(s + [v], dec, m) == Means(s, dec, m)
  {
    if m > 0 {
      assert (m - 1) * dec == m * dec - dec;
      MeansOfPrefix(s, v, dec, m - 1);
      SumOfPrefix(s, v, (m - 1) * dec, m * dec);
    }
  }

  /** The accumulator between samples: the sum of the `cnt` samples not yet averaged. */
  ghost predicate Halfway(input: seq<real>, dec: nat, m: nat, acc: real, cnt: nat) {
    cnt < dec && |input| == m * dec + cnt && acc == Sum(input, m * dec, |input|)
  }

  /** One sample on: it completes a frame or joins the sum. */
  lemma SampleIn(input: seq<real>, dec: nat, m: nat, acc: real, cnt: nat, v: real)
    requires Halfway(input, dec, m, acc, cnt)
    ensures cnt + 1 < dec ==>
      && Halfway(input + [v], dec, m, acc + v, cnt + 1)
      && Means(input + [v], dec, m) == Means(input, dec, m)
    ensures cnt + 1 == dec ==>
      && Halfway(input + [v], dec, m + 1, 0.0, 0)
      && Means(input + [v], dec, m + 1) == Means(input, dec, m) + [(acc + v) / dec as real]
  {
    assert (m + 1) * dec == m * dec + dec;
    SumOfPrefix(input, v, m * dec, |input|);
    MeansOfPrefix(input, v, dec, m);
    assert Sum(input + [v], m * dec, |input| + 1) == acc + v;
  }

  /** The number of frames and the sum in hand follow from how many samples there have been. */
  lemma HalfwayIsUnique(input: seq<real>, dec: nat, m: nat, acc: real, cnt: nat)
    requires Halfway(input, dec, m, acc, cnt)
    ensures m == |input| / dec && cnt == |input| % dec
  {
    DivModUnique(|input|, m, cnt, dec);
    assert dec * (|input| / dec - m) == dec * (|input| / dec) - dec * m;
    MultipleIsFar(dec, |input| / dec - m);
  }

  // ---- packets ------------------------------------------------------------------------------

  const RX_AUDIO := 1
  const INT16 := 0
  const FLOAT32 := 3

  datatype Packet = Packet(head: seq<u32>, payload: seq<real>)

  datatype Record = Record(frames: seq<real>, rate: u32, ch: nat, fmt: u32, number: nat)

  function Scalar(fmt: u32, v: real): real {
    if fmt == INT16 then Trunc(v * 32767.0) as real else v
  }

  function Header(rate: u32, fmt: u32, scalars: nat, ch: nat, count: u32): (h: seq<u32>)
    ensures |h| == 16
  {
    [0, rate, fmt, 0, 0, Wrap(scalars), RX_AUDIO, Wrap(ch), count, 0, 0, 0, 0, 0, 0, 0]
  }

  /** A float sample is sent as it is; an integer one is its product with 32767, cut off towards zero. */
  lemma ScalarIs(fmt: u32, v: real)
    ensures fmt == FLOAT32 ==> Scalar(fmt, v) == v
    ensures fmt == INT16 ==>
      && Scalar(fmt, v) == Scalar(fmt, v).Floor as real
      && (v >= 0.0 ==> 0.0 <= Scalar(fmt, v) <= v * 32767.0 < Scalar(fmt, v) + 1.0)
      && (v <= 0.0 ==> Scalar(fmt, v) - 1.0 < v * 32767.0 <= Scalar(fmt, v) <= 0.0)
  {}

  /** What a client finds in the words of a packet. */
  lemma PacketWords(p: Packet, r: Record)
    requires PacketOk(p, r)
    ensures |p.head| == 16 && p.head[1] == r.rate && p.head[2] == r.fmt && p.head[5] == Wrap(|r.frames| * r.ch)
    ensures p.head[6] == RX_AUDIO && p.head[7] == Wrap(r.ch) && p.head[8] == Wrap(r.number)
    ensures forall k :: 0 <= k < 16 && k !in {1, 2, 5, 6, 7, 8} ==> p.head[k] == 0
  {}

  /** Every frame once on each channel, in order. */
  ghost predicate Interleaved(payload: seq<real>, frames: seq<real>, ch: nat, fmt: u32) {
    && |payload| == |frames| * ch
    && forall i, c {:trigger Place(i, ch, c)} :: 0 <= i < |frames| && 0 <= c < ch ==>
         Place(i, ch, c) < |payload| && payload[Place(i, ch, c)] == Scalar(fmt, frames[i])
  }

  function Place(i: nat, ch: nat, c: nat): nat { i * ch + c }

  ghost predicate PacketOk(p: Packet, r: Record) {
    && Interleaved(p.payload, r.frames, r.ch, r.fmt)
    && p.head == Header(r.rate, r.fmt, |p.payload|, r.ch, Wrap(r.number))
  }

  lemma FrameSpread(payload: seq<real>, frames: seq<real>, v: real, ch: nat, fmt: u32, more: seq<real>)
    requires Interleaved(payload, frames, ch, fmt)
    requires |more| == ch && forall c :: 0 <= c < ch ==> more[c] == Scalar(fmt, v)
    ensures Interleaved(payload + more, frames + [v], ch, fmt)
  {
    var n := |frames|;
    assert (n + 1) * ch == n * ch + ch;
    forall i, c | 0 <= i < n + 1 && 0 <= c < ch
      ensures Place(i, ch, c) < |payload| + ch
      ensures (payload + more)[Place(i, ch, c)] == Scalar(fmt, (frames + [v])[i])
    {
      if i < n {
        assert Place(i, ch, c) < |payload|;
      } else {
        assert Place(i, ch, c) == |payload| + c;
      }
    }
  }

  /** The two nested loops that fill a packet. */
  method Spread(buf: array<real>, fill: nat, ch: nat, fmt: u32) returns (payload: seq<real>)
    requires fill <= buf.Length
    ensures Interleaved(payload, buf[..fill], ch, fmt)
  {
    payload := [];
    for i := 0 to fill
      invariant Interleaved(payload, buf[..i], ch, fmt)
    {
      var v, more := Scalar(fmt, buf[i]), [];
      for c := 0 to ch
        invariant |more| == c && forall k :: 0 <= k < c ==> more[k] == v
      {
        more := more + [v];
      }
      FrameSpread(payload, buf[..i], buf[i], ch, fmt, more);
      assert buf[..i + 1] == buf[..i] + [buf[i]];
      payload := payload + more;
    }
  }

  // ---- the client ------------------------------------------------------------------------------

  function Flat(sent: seq<Record>): seq<real> {
    if sent == [] then [] else Flat(sent[..|sent| - 1]) + sent[|sent| - 1].frames
  }

  /** Packets sent, frames waiting, and the tap samples (and whole frames made of them) since
      the decimator was last reset; `earlier` is all that was sent by then, `start` the number
      of packets at the last restart of the packet counter. */
  datatype History = History(sent: seq<Record>, part: seq<real>, input: seq<real>, m: nat, earlier: seq<real>, start: nat)

  ghost predicate SentOk(queue: seq<Packet>, sent: seq<Record>, start: nat, count: u32) {
    && |queue| == |sent| && start <= |sent| && count == Wrap(|sent| - start)
    && (forall k :: 0 <= k < |sent| ==> PacketOk(queue[k], sent[k]))
    && (forall k :: start <= k < |sent| ==> sent[k].number == k - start)
  }

  /** Nothing is lost, repeated or reordered: packets and waiting frames are the decimated tap. */
  ghost predicate StreamOk(h: History, dec: nat, acc: real, cnt: nat) {
    && Halfway(h.input, dec, h.m, acc, cnt)
    && Flat(h.sent) + h.part == h.earlier + Means(h.input, dec, h.m)
  }

  ghost predicate Waits(buf: seq<real>, part: seq<real>, fill: nat) {
    |part| == fill < BUFFER == |buf| && forall i :: 0 <= i < fill ==> buf[i] == part[i]
  }

  function Dec(rate: int): (d: nat)
    ensures d >= 1
  {
    var d := TAP_RATE / (if rate > 0 then rate else TAP_RATE);
    if d < 1 then 1 else d
  }

  predicate IsRate(rate: int) { rate == 8000 || rate == 12000 || rate == 24000 || rate == 48000 }

  /** At the four rates a client can have, as many tap samples make a frame as the tap is faster. */
  lemma DecIsTheRatio(rate: int)
    requires IsRate(rate)
    ensures Dec(rate) == 48000 / rate && Dec(rate) * rate == 48000
  {}

  /** A packet holds as many whole frames as fit the block size a client can ask for. */
  lemma PacketFitsBlock(block: nat, ch: nat)
    requires 100 <= block <= 2048 && ch in {1, 2}
    ensures PerPacket(block, ch) * ch <= block < (PerPacket(block, ch) + 1) * ch
  {}

  /** Frames per packet. */
  function PerPacket(block: nat, ch: nat): (f: nat)
    requires ch > 0
    ensures 1 <= f <= BUFFER
  {
    var f := block / ch;
    if f < 1 then 1 else if f > BUFFER then BUFFER else f
  }

  function Packed(h: History, rate: u32, ch: nat, fmt: u32): History
    requires h.start <= |h.sent|
  {
    h.(sent := h.sent + [Record(h.part, rate, ch, fmt, |h.sent| - h.start)], part := [])
  }

  /** The decimator begins again behind what was sent. */
  function Begun(h: History, start: nat): History { History(h.sent, [], [], 0, Flat(h.sent), start) }

  lemma BegunIsOk(h: History, start: nat, dec: nat)
    requires dec > 0
    ensures StreamOk(Begun(h, start), dec, 0.0, 0)
  {}

  lemma NumbersBegin(queue: seq<Packet>, h: History, count: u32)
    requires SentOk(queue, h.sent, h.start, count)
    ensures SentOk(queue, h.sent, |h.sent|, 0)
  {}

  /** The packet counter begins again behind what was sent. */
  function Restarted(h: History): History { h.(start := |h.sent|) }

  lemma PacketDone(queue: seq<Packet>, h: History, payload: seq<real>, rate: u32, ch: nat, fmt: u32, count: u32,
                   dec: nat, acc: real, cnt: nat)
    requires SentOk(queue, h.sent, h.start, count) && StreamOk(h, dec, acc, cnt)
    requires Interleaved(payload, h.part, ch, fmt)
    ensures var p, h' := Packet(Header(rate, fmt, |payload|, ch, count), payload), Packed(h, rate, ch, fmt);
      SentOk(queue + [p], h'.sent, h'.start, Wrap(count + 1)) && StreamOk(h', dec, acc, cnt)
  {
    var r := Record(h.part, rate, ch, fmt, |h.sent| - h.start);
    assert (h.sent + [r])[..|h.sent|] == h.sent;
    WrapOfSum(|h.sent| - h.start, 1);
    assert Flat(h.sent + [r]) + [] == Flat(h.sent) + h.part;
  }

  /** The history after one more tap sample, before any packet it completes is sent. */
  function Fed(h: History, dec: nat, acc: real, cnt: nat, v: real): History
    requires dec > 0
  {
    if cnt + 1 < dec then h.(input := h.input + [v])
    else h.(input := h.input + [v], m := h.m + 1, part := h.part + [(acc + v) / dec as real])
  }

  /** The history after one tap sample: a frame that fills the packet sends it. */
  function AfterSample(h: History, dec: nat, acc: real, cnt: nat, v: real, size: nat, rate: u32, ch: nat, fmt: u32): History
    requires h.start <= |h.sent| && dec > 0
  {
    var f := Fed(h, dec, acc, cnt, v);
    if cnt + 1 >= dec && |f.part| >= size then Packed(f, rate, ch, fmt) else f
  }

  ghost predicate SizesFrom(sent: seq<Record>, from: nat, size: nat) {
    forall k :: from <= k < |sent| ==> |sent[k].frames| == size
  }

  /** From less than a packet in hand, only whole packets of one size have gone out. */
  ghost predicate InSizes(h0: History, h: History, size: nat) {
    && h0.sent <= h.sent
    && (|h0.part| < size ==> |h.part| < size && SizesFrom(h.sent, |h0.sent|, size))
  }

  /** A chunk's first `i` samples have gone in since `h0`. */
  ghost predicate Along(h0: History, h: History, chunk: seq<real>, i: nat, size: nat) {
    i <= |chunk| && h.input == h0.input + chunk[..i] && h.earlier == h0.earlier && InSizes(h0, h, size)
  }

  lemma GoesAlong(h0: History, h: History, chunk: seq<real>, i: nat, dec: nat, acc: real, cnt: nat,
                  size: nat, rate: u32, ch: nat, fmt: u32)
    requires i < |chunk| && Along(h0, h, chunk, i, size) && h.start <= |h.sent| && dec > 0
    ensures Along(h0, AfterSample(h, dec, acc, cnt, chunk[i], size, rate, ch, fmt), chunk, i + 1, size)
  {
    assert h0.input + chunk[..i + 1] == h0.input + chunk[..i] + [chunk[i]];
  }

  lemma FedIsOk(h: History, dec: nat, acc: real, cnt: nat, v: real)
    requires StreamOk(h, dec, acc, cnt)
    ensures cnt + 1 < dec ==> StreamOk(Fed(h, dec, acc, cnt, v), dec, acc + v, cnt + 1)
    ensures cnt + 1 >= dec ==> StreamOk(Fed(h, dec, acc, cnt, v), dec, 0.0, 0)
  {
    SampleIn(h.input, dec, h.m, acc, cnt, v);
    if cnt + 1 >= dec {
      var y := (acc + v) / dec as real;
      assert Flat(h.sent) + (h.part + [y]) == Flat(h.sent) + h.part + [y];
      assert h.earlier + (Means(h.input, dec, h.m) + [y]) == h.earlier + Means(h.input, dec, h.m) + [y];
    }
  }

  class AudioClient {
    const buf: array<real>
    var acc: real
    var cnt: nat
    var fill: nat
    var rate: u32
    var ch: nat
    var block: nat
    var blockSet: bool
    var fmt: u32
    var sub: bool
    var count: u32
    var queue: seq<Packet>
    ghost var h: History

    ghost predicate Valid() reads this, buf {
      && ch in {1, 2} && IsRate(rate) && 100 <= block <= 2048
      && Waits(buf[..], h.part, fill)
      && StreamOk(h, Dec(rate), acc, cnt)
      && SentOk(queue, h.sent, h.start, count)
    }

    constructor ()
      ensures Valid() && fresh(buf) && !sub && h == History([], [], [], 0, [], 0)
    {
      buf := new real[BUFFER](_ => 0.0);
      acc, cnt, fill, rate, ch, block, blockSet := 0.0, 0, 0, TAP_RATE, 2, 2048, false;
      fmt, sub, count, queue := FLOAT32, false, 0, [];
      h := History([], [], [], 0, [], 0);
    }

    /** `audio_start`: a fresh subscription starts from nothing; a repeated one changes nothing. */
    method Start()
      requires Valid()
      modifies this
      ensures Valid() && sub
      ensures old(sub) ==> unchanged(this)
      ensures !old(sub) ==> fill == 0 && cnt == 0 && acc == 0.0 && count == 0
                            && h == Begun(old(h), |old(h).sent|)
      ensures queue == old(queue) && rate == old(rate) && ch == old(ch) && block == old(block) && fmt == old(fmt)
    {
      if !sub {
        BegunIsOk(h, |h.sent|, Dec(rate));
        NumbersBegin(queue, h, count);
        sub, acc, cnt, fill, count := true, 0.0, 0, 0, 0;
        h := Begun(h, |h.sent|);
      }
    }

    /** `audio_stop`: the stream rests where it is until a fresh start. */
    method Stop()
      requires Valid()
      modifies this`sub
      ensures Valid() && !sub
    {
      sub := false;
    }

    /** `audio_samplerate`: the four rates restart the decimator, anything else is ignored. */
    method SetRate(r: int)
      requires Valid()
      modifies this`rate, this`block, this`acc, this`cnt, this`fill, this`h
      ensures Valid()
      ensures r !in {8000, 12000, 24000, 48000} ==> rate == old(rate) && block == old(block) && h == old(h)
      ensures r in {8000, 12000, 24000, 48000} ==>
        && rate == r && h == Begun(old(h), old(h).start)
        && (blockSet ==> block == old(block))
        && (!blockSet ==> block == if r == 48000 then 2048 else if r == 24000 then 1024 else if r == 12000 then 512 else 256)
    {
      if r == 8000 || r == 12000 || r == 24000 || r == 48000 {
        rate := r;
        if !blockSet {
          block := if r == 48000 then 2048 else if r == 24000 then 1024 else if r == 12000 then 512 else 256;
        }
        Rewind();
      }
    }

    /** The decimator begins again, at whatever rate is set by now. */
    method Rewind()
      requires ch in {1, 2} && IsRate(rate) && 100 <= block <= 2048 && buf.Length == BUFFER && SentOk(queue, h.sent, h.start, count)
      modifies this`acc, this`cnt, this`fill, this`h
      ensures Valid() && h == Begun(old(h), old(h).start)
    {
      BegunIsOk(h, h.start, Dec(rate));
      acc, cnt, fill := 0.0, 0, 0;
      h := Begun(h, h.start);
    }

    /** `audio_stream_channels` and `audio_stream_samples`: from the next packet on. */
    method SetChannels(n: int)
      requires Valid()
      modifies this`ch
      ensures Valid() && ch == if n == 1 then 1 else 2
    {
      ch := if n == 1 then 1 else 2;
    }

    method SetBlock(n: int)
      requires Valid()
      modifies this`block, this`blockSet
      ensures Valid() && blockSet && block == Clamp(n, 100, 2048)
    {
      block, blockSet := Clamp(n, 100, 2048), true;
    }

    /** A trx edge restarts the packet counter only. */
    method RestartCount()
      requires Valid()
      modifies this`count, this`h
      ensures Valid() && count == 0 && h == Restarted(old(h)) == old(h).(start := |old(h).sent|)
    {
      count := 0;
      h := h.(start := |h.sent|);
    }

    method Emit()
      requires ch in {1, 2} && IsRate(rate) && 100 <= block <= 2048
      requires |h.part| == fill <= BUFFER == buf.Length && buf[..fill] == h.part
      requires StreamOk(h, Dec(rate), acc, cnt) && SentOk(queue, h.sent, h.start, count)
      modifies this`fill, this`count, this`queue, this`h
      ensures Valid() && fill == 0 && h == Packed(old(h), rate, ch, fmt) && count == Wrap(old(count) + 1)
    {
      var payload := Spread(buf, fill, ch, fmt);
      PacketDone(queue, h, payload, rate, ch, fmt, count, Dec(rate), acc, cnt);
      queue := queue + [Packet(Header(rate, fmt, |payload|, ch, count), payload)];
      h := Packed(h, rate, ch, fmt);
      count, fill := Wrap(count + 1), 0;
    }

    /** One tap sample into the sum; a whole frame into the buffer. */
    method Accumulate(v: real, dec: nat)
      requires Valid() && dec == Dec(rate)
      modifies this`acc, this`cnt, this`fill, this`h, buf
      ensures fill == |h.part| <= BUFFER == buf.Length && buf[..fill] == h.part
      ensures StreamOk(h, dec, acc, cnt) && h == Fed(old(h), dec, old(acc), old(cnt), v)
      ensures cnt == if old(cnt) + 1 < dec then old(cnt) + 1 else 0
      ensures cnt != 0 ==> fill == old(fill)
    {
      FedIsOk(h, dec, acc, cnt, v);
      h := Fed(h, dec, acc, cnt, v);
      acc, cnt := acc + v, cnt + 1;
      if cnt >= dec {
        buf[fill] := acc / dec as real;
        fill, acc, cnt := fill + 1, 0.0, 0;
      }
    }

    /** One tap sample, and the packet it completes. */
    method Feed(v: real, dec: nat, size: nat)
      requires Valid() && dec == Dec(rate) && size == PerPacket(block, ch)
      modifies this`acc, this`cnt, this`fill, this`count, this`queue, this`h, buf
      ensures Valid()
      ensures h == AfterSample(old(h), dec, old(acc), old(cnt), v, size, rate, ch, fmt)
    {
      Accumulate(v, dec);
      if cnt == 0 && fill >= size {
        Emit();
      }
    }

    /** The loop body of Pump. */
    method FeedNext(chunk: seq<real>, i: nat, dec: nat, size: nat, ghost h0: History)
      requires Valid() && dec == Dec(rate) && size == PerPacket(block, ch)
      requires i < |chunk| && Along(h0, h, chunk, i, size)
      modifies this`acc, this`cnt, this`fill, this`count, this`queue, this`h, buf
      ensures Valid() && Along(h0, h, chunk, i + 1, size)
    {
      GoesAlong(h0, h, chunk, i, dec, acc, cnt, size, rate, ch, fmt);
      Feed(chunk[i], dec, size);
    }

    /** One chunk of the pump. However the tap is cut into chunks, the client's input is their
        concatenation; from less than a packet in hand every packet sent is exactly one packet long. */
    method Pump(chunk: seq<real>)
      requires Valid()
      modifies this`acc, this`cnt, this`fill, this`count, this`queue, this`h, buf
      ensures Valid()
      ensures Along(old(h), h, chunk, |chunk|, PerPacket(block, ch))
    {
      ghost var h0 := h;
      var size, dec, i := PerPacket(block, ch), Dec(rate), 0;
      while i < |chunk|
        invariant i <= |chunk| && Valid()
        invariant Along(h0, h, chunk, i, size)
      {
        FeedNext(chunk, i, dec, size, h0);
        i := i + 1;
      }
    }
  }

  /** Since the decimator was last started, what was sent and what waits is the whole tap so far,
      averaged, behind all that was sent before. */
  lemma StreamIsTheDecimatedTap(h: History, dec: nat, acc: real, cnt: nat, j: nat)
    requires StreamOk(h, dec, acc, cnt) && j < |h.input| / dec
    ensures |Flat(h.sent) + h.part| == |h.earlier| + |h.input| / dec
    ensures h.earlier <= Flat(h.sent) + h.part
    ensures j * dec <= (j + 1) * dec <= |h.input|
    ensures (Flat(h.sent) + h.part)[|h.earlier| + j] == Sum(h.input, j * dec, (j + 1) * dec) / dec as real
  {
    HalfwayIsUnique(h.input, dec, h.m, acc, cnt);
    FrameIsTheMean(h.input, dec, h.m, j);
    assert (j + 1) * dec == j * dec + dec;
  }

  /** By the rate the client asked for: for every 48000 samples of the tap it gets as many frames as its rate
      says, frame `j` being the mean of the `48000 / rate` samples from `j * (48000 / rate)` on. */
  lemma ClientGetsItsRate(c: AudioClient, j: nat)
    requires c.Valid() && j < |c.h.input| * c.rate / 48000
    ensures |Flat(c.h.sent) + c.h.part| == |c.h.earlier| + |c.h.input| * c.rate / 48000
    ensures (j + 1) * (48000 / c.rate) <= |c.h.input|
    ensures (Flat(c.h.sent) + c.h.part)[|c.h.earlier| + j]
         == Sum(c.h.input, j * (48000 / c.rate), (j + 1) * (48000 / c.rate)) / (48000 / c.rate) as real
  {
    DecIsTheRatio(c.rate);
    FramesByRate(|c.h.input|, c.rate);
    StreamIsTheDecimatedTap(c.h, 48000 / c.rate, c.acc, c.cnt, j);
  }

  lemma FramesByRate(n: nat, rate: int)
    requires IsRate(rate)
    ensures n / (48000 / rate) == n * rate / 48000
  {}

  // ---- the packet counters of all clients ------------------------------------------------------

  datatype Event =
    | Sent(client: nat)      // a packet went out
    | Fresh(client: nat)     // a fresh audio_start
    | Announced(trx: int)    // a trx notification, from the command or from the reporter

  /** The last announced key state (-1 before the first) and each client's counter. */
  datatype Counters = Counters(trx: int, count: seq<int>)

  function Step(s: Counters, e: Event): (r: Counters)
    ensures |r.count| == |s.count|
  {
    match e
    case Sent(c) => if c < |s.count| then s.(count := s.count[c := Wrap(s.count[c] + 1)]) else s
    case Fresh(c) => if c < |s.count| then s.(count := s.count[c := 0]) else s
    case Announced(trx) =>
      if trx != s.trx then Counters(trx, seq(|s.count|, i => 0)) else s
  }

  function Run(s: Counters, es: seq<Event>, n: nat): (r: Counters)
    requires n <= |es|
    ensures |r.count| == |s.count|
  {
    if n == 0 then s else Step(Run(s, es, n - 1), es[n - 1])
  }

  /** The key state announced last among the first `n` events. */
  function Key(trx0: int, es: seq<Event>, n: nat): int
    requires n <= |es|
  {
    if n == 0 then trx0 else if es[n - 1].Announced? then es[n - 1].trx else Key(trx0, es, n - 1)
  }

  /** Event `i` restarts client `c`'s counter: its own fresh start, or a change of the key. */
  predicate Restarts(trx0: int, es: seq<Event>, i: nat, c: nat)
    requires i < |es|
  {
    es[i] == Fresh(c) || (es[i].Announced? && es[i].trx != Key(trx0, es, i))
  }

  function PacketsSince(es: seq<Event>, from: nat, n: nat, c: nat): nat
    requires from <= n <= |es|
    decreases n
  {
    if n == from then 0 else PacketsSince(es, from, n - 1, c) + (if es[n - 1] == Sent(c) then 1 else 0)
  }

  lemma {:induction false} TrxIsKey(s: Counters, es: seq<Event>, n: nat)
    requires n <= |es|
    ensures Run(s, es, n).trx == Key(s.trx, es, n)
  {
    if n > 0 {
      TrxIsKey(s, es, n - 1);
    }
  }

  /** One event and one client's counter: its own packet counts, its own fresh start and a change of the key
      announced begin again, and nothing else touches it. */
  lemma CounterStep(s: Counters, es: seq<Event>, n: nat, c: nat)
    requires n < |es| && c < |s.count|
    ensures var was, now := Run(s, es, n), Run(s, es, n + 1);
      && now.trx == (if es[n].Announced? then es[n].trx else was.trx)
      && now.count[c] ==
           if es[n] == Fresh(c) || (es[n].Announced? && es[n].trx != was.trx) then 0
           else if es[n] == Sent(c) then Wrap(was.count[c] + 1) else was.count[c]
    ensures Restarts(s.trx, es, n, c) <==>
            es[n] == Fresh(c) || (es[n].Announced? && es[n].trx != Run(s, es, n).trx)
  {
    TrxIsKey(s, es, n);
  }

  /** Word 8 of a client's next packet is the number of packets it got since its stream started
      or the key last changed, whoever else was served and however often the key was announced. */
  lemma {:induction false} CountIsPacketsSinceRestart(s: Counters, es: seq<Event>, r: nat, n: nat, c: nat)
    requires r < n <= |es| && c < |s.count|
    requires Restarts(s.trx, es, r, c)
    requires forall i :: r < i < n ==> !Restarts(s.trx, es, i, c)
    ensures Run(s, es, n).count[c] == Wrap(PacketsSince(es, r + 1, n, c))
  {
    TrxIsKey(s, es, n - 1);
    if n > r + 1 {
      assert !Restarts(s.trx, es, n - 1, c);
      CountIsPacketsSinceRestart(s, es, r, n - 1, c);
      WrapOfSum(PacketsSince(es, r + 1, n - 1, c), 1);
    }
  }

  /** The server's part: its clients' streams and the key state announced last. */
  class AudioServer {
    const cli: seq<AudioClient>
    var trx: int

    ghost predicate Valid()
      reads this, cli, set c | c in cli :: c.buf
    {
      && (forall i :: 0 <= i < |cli| ==> cli[i].Valid())
      && forall i, j :: 0 <= i < j < |cli| ==> cli[i] != cli[j] && cli[i].buf != cli[j].buf
    }

    ghost function Counts(): Counters
      reads this, cli
    {
      Counters(trx, seq(|cli|, i requires 0 <= i < |cli| reads cli => cli[i].count))
    }

    constructor (clients: seq<AudioClient>)
      ensures cli == clients && trx == -1
    {
      cli, trx := clients, -1;
    }

    /** A trx notification: a key state other than the last announced restarts every client's counter; the
        same one again changes nothing. */
    method Announce(on: int)
      requires Valid()
      modifies this`trx, cli`count, cli`h
      ensures Valid() && Counts() == Step(old(Counts()), Announced(on))
      ensures forall k :: 0 <= k < |cli| ==>
        cli[k].h == if on == old(trx) then old(cli[k].h) else Restarted(old(cli[k].h))
    {
      if on == trx { return; }
      trx := on;
      RestartAll(seq(|cli|, k requires 0 <= k < |cli| reads cli => cli[k].h));
    }

    /** The first `n` clients have been restarted, the others have their histories of `hs`. */
    ghost predicate RestartedTo(n: nat, hs: seq<History>)
      reads cli
    {
      |hs| == |cli| && forall k :: 0 <= k < |cli| ==>
        if k < n then cli[k].count == 0 && cli[k].h == Restarted(hs[k]) else cli[k].h == hs[k]
    }

    method RestartAll(ghost hs: seq<History>)
      requires Valid() && RestartedTo(0, hs)
      modifies cli`count, cli`h
      ensures Valid() && RestartedTo(|cli|, hs)
    {
      for i := 0 to |cli|
        invariant Valid() && RestartedTo(i, hs)
      {
        RestartOne(i, hs);
      }
    }

    method RestartOne(i: nat, ghost hs: seq<History>)
      requires Valid() && i < |cli| && RestartedTo(i, hs)
      modifies cli`count, cli`h
      ensures Valid() && RestartedTo(i + 1, hs)
    {
      var c := cli[i];
      assert c.h == hs[i];
      c.RestartCount();
    }

    /** `audio_start` from client `i`: a fresh one is the other thing that restarts a counter. */
    method StartClient(i: nat)
      requires Valid() && i < |cli|
      modifies cli[i]
      ensures Valid() && cli[i].sub
      ensures Counts() == if old(cli[i].sub) then old(Counts()) else Step(old(Counts()), Fresh(i))
    {
      cli[i].Start();
    }
  }
}
