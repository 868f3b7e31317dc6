/**
 The link between the two stages: a feature vector as 23 little-endian doubles and two 16 byte
 addresses, 216 bytes in all; a sender that drops its connection on any error; and a receiver that
 reassembles frames from whatever chunks the socket delivers.

 A double is its 8 byte bit pattern, most significant byte first.
 */
module Wire {
  import opened Targets

  const FRAME: nat := 216
  const FIELDS: nat := 23

  type Bytes = seq<bv8>
  type Word = s: Bytes | |s| == 8 witness [0, 0, 0, 0, 0, 0, 0, 0]

  datatype FeatureVector = FeatureVector(
    entropy: Word, ewmaRate: Word, meanH: Word, meanR: Word, sigmaH: Word, sigmaR: Word, protoRatio: Word,
    dominantIpRatio: Word, timestamp: Word, protoTcp: Word, protoUdp: Word, protoIcmp: Word, protoSctp: Word,
    protoGre: Word, protoEsp: Word, kMultiplier: Word, cooldownCounter: Word, egressRate: Word, dropRatio: Word,
    sourcePortEntropy: Word, ttlVariance: Word, fingerprintDiversity: Word, isWarmup: Word,
    dominantIp: IpAddr, victimIp: IpAddr)

  // ----- the sender's side -----

  /** The numeric fields in the order they are written. */
  function Fields(v: FeatureVector): (ws: seq<Word>)
    ensures |ws| == FIELDS
  {
    [v.entropy, v.ewmaRate, v.meanH, v.meanR, v.sigmaH, v.sigmaR, v.protoRatio, v.dominantIpRatio, v.timestamp,
     v.protoTcp, v.protoUdp, v.protoIcmp, v.protoSctp, v.protoGre, v.protoEsp, v.kMultiplier, v.cooldownCounter,
     v.egressRate, v.dropRatio, v.sourcePortEntropy, v.ttlVariance, v.fingerprintDiversity, v.isWarmup]
  }

  function Reversed(w: Word): Word {
    [w[7], w[6], w[5], w[4], w[3], w[2], w[1], w[0]]
  }

  function WriteWords(ws: seq<Word>): (b: Bytes)
    ensures |b| == 8 * |ws|
  {
    if ws == [] then [] else WriteWords(ws[..|ws| - 1]) + Reversed(ws[|ws| - 1])
  }

  function Encode(v: FeatureVector): (b: Bytes)
    ensures |b| == FRAME
  {
    WriteWords(Fields(v)) + ToAddr(v.dominantIp) + ToAddr(v.victimIp)
  }

  method ToBytes(v: FeatureVector) returns (buf: Bytes)
    ensures buf == Encode(v) && |buf| == FRAME
  {
    hide Reversed, ToAddr;
    buf := [];
    var fields := Fields(v);
    for i := 0 to FIELDS
      invariant buf == WriteWords(fields[..i])
    {
      assert fields[..i + 1][..i] == fields[..i];
      buf := buf + Reversed(fields[i]);
    }
    assert fields[..FIELDS] == fields;
    buf := buf + ToAddr(v.dominantIp);
    buf := buf + ToAddr(v.victimIp);
  }

  /** The little-endian number in bytes 8 i to 8 i + 7, most significant byte first. */
  function NumberAt(b: Bytes, i: nat): Word
    requires 8 * i + 8 <= |b|
  {
    [b[8 * i + 7], b[8 * i + 6], b[8 * i + 5], b[8 * i + 4], b[8 * i + 3], b[8 * i + 2], b[8 * i + 1], b[8 * i]]
  }

  lemma NumberIsSlice(b: Bytes, i: nat)
    requires 8 * i + 8 <= |b|
    ensures NumberAt(b, i) == Reversed(b[8 * i..8 * (i + 1)])
  {
  }

  lemma NumberIsField(v: FeatureVector, i: nat)
    requires i < FIELDS
    ensures NumberAt(Encode(v), i) == Fields(v)[i]
  {
    hide ToAddr, WriteWords, NumberAt, Reversed;
    var ws, tail := WriteWords(Fields(v)), ToAddr(v.dominantIp) + ToAddr(v.victimIp);
    assert Encode(v) == ws + tail;
    WordAt(Fields(v), i);
    SliceOfFirst(ws, tail, 8 * i, 8 * (i + 1));
    NumberIsSlice(Encode(v), i);
    ReversedTwice(Fields(v)[i]);
  }

  /** The frame, field by field: 23 numbers in this order, then the two addresses. */
  lemma FrameLayout(v: FeatureVector)
    ensures var b := Encode(v);
            v == FeatureVector(
                   NumberAt(b, 0), NumberAt(b, 1), NumberAt(b, 2), NumberAt(b, 3), NumberAt(b, 4), NumberAt(b, 5),
                   NumberAt(b, 6), NumberAt(b, 7), NumberAt(b, 8), NumberAt(b, 9), NumberAt(b, 10), NumberAt(b, 11),
                   NumberAt(b, 12), NumberAt(b, 13), NumberAt(b, 14), NumberAt(b, 15), NumberAt(b, 16), NumberAt(b, 17),
                   NumberAt(b, 18), NumberAt(b, 19), NumberAt(b, 20), NumberAt(b, 21), NumberAt(b, 22),
                   v.dominantIp, v.victimIp)
    ensures Encode(v)[184..200] == ToAddr(v.dominantIp) && Encode(v)[200..] == ToAddr(v.victimIp)
  {
    hide Encode, NumberAt, ToAddr;
    NumberIsField(v, 0);
    NumberIsField(v, 1);
    NumberIsField(v, 2);
    NumberIsField(v, 3);
    NumberIsField(v, 4);
    NumberIsField(v, 5);
    NumberIsField(v, 6);
    NumberIsField(v, 7);
    NumberIsField(v, 8);
    NumberIsField(v, 9);
    NumberIsField(v, 10);
    NumberIsField(v, 11);
    NumberIsField(v, 12);
    NumberIsField(v, 13);
    NumberIsField(v, 14);
    NumberIsField(v, 15);
    NumberIsField(v, 16);
    NumberIsField(v, 17);
    NumberIsField(v, 18);
    NumberIsField(v, 19);
    NumberIsField(v, 20);
    NumberIsField(v, 21);
    NumberIsField(v, 22);
    AddressesLast(v);
  }

  lemma AddressesLast(v: FeatureVector)
    ensures Encode(v)[184..200] == ToAddr(v.dominantIp) && Encode(v)[200..] == ToAddr(v.victimIp)
  {
    hide ToAddr, WriteWords;
  }

  // ----- the receiver's side -----

  function ReadWords(b: Bytes, n: nat): (ws: seq<Word>)
    requires 8 * n <= |b|
    ensures |ws| == n
  {
    if n == 0 then [] else ReadWords(b, n - 1) + [Reversed(b[8 * (n - 1)..8 * n])]
  }

  /** Positions 0 to 22 of the unpacked tuple, by name. */
  function FromFields(u: seq<Word>, dominant: IpAddr, victim: IpAddr): FeatureVector
    requires |u| == FIELDS
  {
    FeatureVector(u[0], u[1], u[2], u[3], u[4], u[5], u[6], u[7], u[8], u[9], u[10], u[11], u[12], u[13], u[14],
                  u[15], u[16], u[17], u[18], u[19], u[20], u[21], u[22], dominant, victim)
  }

  function Decode(frame: Bytes): FeatureVector
    requires |frame| == FRAME
  {
    FromFields(ReadWords(frame, FIELDS), FromAddr(frame[184..200]), FromAddr(frame[200..216]))
  }

  lemma ReversedTwice(w: Word)
    ensures Reversed(Reversed(w)) == w
  {
  }

  lemma {:induction false} ReadBack(ws: seq<Word>, rest: Bytes, n: nat)
    requires n <= |ws|
    ensures ReadWords(WriteWords(ws) + rest, n) == ws[..n]
  {
    hide Reversed, WriteWords;
    if n > 0 {
      ReadBack(ws, rest, n - 1);
      ReversedTwice(ws[n - 1]);
      WordAt(ws, n - 1);
      var b := WriteWords(ws) + rest;
      assert b[8 * (n - 1)..8 * n] == WriteWords(ws)[8 * (n - 1)..8 * n];
      assert ws[..n] == ws[..n - 1] + [ws[n - 1]];
    }
  }

  lemma {:induction false} WordAt(ws: seq<Word>, i: nat)
    requires i < |ws|
    ensures WriteWords(ws)[8 * i..8 * (i + 1)] == Reversed(ws[i])
  {
    hide Reversed;
    if i < |ws| - 1 {
      WordAt(ws[..|ws| - 1], i);
      SliceOfFirst(WriteWords(ws[..|ws| - 1]), Reversed(ws[|ws| - 1]), 8 * i, 8 * (i + 1));
    }
  }

  lemma SliceOfFirst(a: Bytes, b: Bytes, i: nat, j: nat)
    requires i <= j <= |a|
    ensures (a + b)[i..j] == a[i..j]
  {
  }

  lemma {:induction false} WriteBack(b: Bytes, n: nat)
    requires 8 * n <= |b|
    ensures WriteWords(ReadWords(b, n)) == b[..8 * n]
  {
    hide Reversed;
    if n > 0 {
      WriteBack(b, n - 1);
      ReversedTwice(b[8 * (n - 1)..8 * n]);
      var ws := ReadWords(b, n);
      assert ws[..n - 1] == ReadWords(b, n - 1);
      assert b[..8 * n] == b[..8 * (n - 1)] + b[8 * (n - 1)..8 * n];
    }
  }

  /** A vector as the receiver sees it: addresses in the form they read back as. */
  function AsReceived(v: FeatureVector): FeatureVector {
    v.(dominantIp := FromAddr(ToAddr(v.dominantIp)), victimIp := FromAddr(ToAddr(v.victimIp)))
  }

  /** Decoding what was encoded gives the vector back, addresses unwrapped from their mapped form. */
  lemma DecodeEncode(v: FeatureVector)
    ensures Decode(Encode(v)) == AsReceived(v)
  {
    hide ToAddr, FromAddr, WriteWords, ReadWords;
    var ws := Fields(v);
    var tail := ToAddr(v.dominantIp) + ToAddr(v.victimIp);
    var b := Encode(v);
    assert b == WriteWords(ws) + tail;
    ReadBack(ws, tail, FIELDS);
    assert ws[..FIELDS] == ws;
    assert b[184..200] == ToAddr(v.dominantIp) && b[200..216] == ToAddr(v.victimIp);
  }

  /** The round trip is exact for precisely the vectors whose addresses are not IPv4-mapped IPv6. */
  lemma RoundTripIff(v: FeatureVector)
    ensures Decode(Encode(v)) == v <==> Canonical(v.dominantIp) && Canonical(v.victimIp)
  {
    hide ToAddr, FromAddr, Encode, Decode, Canonical;
    DecodeEncode(v);
    AddressRoundTrip(v.dominantIp);
    AddressRoundTrip(v.victimIp);
  }

  /** Every 216 byte frame is the encoding of what it decodes to. */
  lemma EncodeDecode(frame: Bytes)
    requires |frame| == FRAME
    ensures Encode(Decode(frame)) == frame
  {
    hide ToAddr, FromAddr, WriteWords, ReadWords;
    var ws := ReadWords(frame, FIELDS);
    WriteBack(frame, FIELDS);
    StoredRoundTrip(frame[184..200]);
    StoredRoundTrip(frame[200..216]);
    assert Fields(Decode(frame)) == ws;
    assert frame == frame[..184] + frame[184..200] + frame[200..216];
  }

  // ----- reassembly -----

  /** The complete frames of a byte stream, in order; a trailing partial frame is none. */
  function Frames(b: Bytes): seq<Bytes> {
    if |b| < FRAME then [] else [b[..FRAME]] + Frames(b[FRAME..])
  }

  /** A connection: what the peer wrote before it closed, minus what was read. */
  class Connection {
    var unread: Bytes

    constructor (bytes: Bytes)
      ensures unread == bytes
    {
      unread := bytes;
    }

    /** Any non-empty part of what is next, at most n bytes; empty only at the end. */
    method Recv(n: nat) returns (chunk: Bytes)
      requires n >= 1
      modifies this
      ensures chunk + unread == old(unread) && |chunk| <= n
      ensures chunk == [] <==> old(unread) == []
    {
      chunk := [];
      if unread != [] {
        var k: nat :| 1 <= k <= n && k <= |unread|;
        chunk := unread[..k];
        unread := unread[k..];
      }
    }
  }

  /** How many of n frames are handled when handling frame i raises an error exactly if fails(i). */
  function Handled(n: nat, fails: nat -> bool): (k: nat)
    ensures k <= n && (forall i :: 0 <= i < k - 1 ==> !fails(i))
    ensures k < n ==> k >= 1 && fails(k - 1)
  {
    if n == 0 then 0
    else
      var k := Handled(n - 1, fails);
      if k < n - 1 || (k > 0 && fails(k - 1)) then k else n
  }

  lemma HandledFirst(n: nat, fails: nat -> bool, k: nat)
    requires 1 <= k <= n && fails(k - 1) && forall i :: 0 <= i < k - 1 ==> !fails(i)
    ensures Handled(n, fails) == k
  {
  }

  lemma FramesStep(b: Bytes, done: seq<Bytes>, rest: Bytes)
    requires Frames(b) == done + Frames(rest) && |rest| >= FRAME
    ensures Frames(b) == done + [rest[..FRAME]] + Frames(rest[FRAME..])
  {
  }

  /**
   Whatever the chunking, exactly the complete frames of the stream come out, in order, up to the first whose
   handling raises an error: that abandons the connection.
   */
  method ReceiveFrames(conn: Connection, fails: nat -> bool) returns (frames: seq<Bytes>)
    modifies conn
    ensures var all := Frames(old(conn.unread));
            frames == all[..Handled(|all|, fails)]
    ensures (forall i :: 0 <= i < |frames| ==> !fails(i)) ==> conn.unread == []
  {
    hide Frames, Handled;
    frames := [];
    ghost var all := Frames(conn.unread);
    assert all == [] + Frames(conn.unread);
    while true
      invariant all == frames + Frames(conn.unread)
      invariant forall i :: 0 <= i < |frames| ==> !fails(i)
      decreases |conn.unread|
    {
      ghost var before := conn.unread;
      ShortStream(before);
      var data := conn.Recv(FRAME);
      if data == [] {
        assert all == frames;
        break;
      }
      while |data| < FRAME
        invariant data + conn.unread == before && 1 <= |data| <= FRAME
        decreases FRAME - |data|
      {
        var chunk := conn.Recv(FRAME - |data|);
        if chunk == [] {
          break;
        }
        data := data + chunk;
      }
      if |data| < FRAME {
        assert all == frames;
        break;
      }
      assert before[..FRAME] == data && before[FRAME..] == conn.unread;
      FramesStep(old(conn.unread), frames, before);
      frames := frames + [data];
      if fails(|frames| - 1) {
        HandledFirst(|all|, fails, |frames|);
        return;
      }
    }
    HandledAll(|all|, fails);
  }

  lemma ShortStream(b: Bytes)
    ensures |b| < FRAME ==> Frames(b) == []
  {
  }

  lemma HandledAll(n: nat, fails: nat -> bool)
    ensures Handled(n, fails) == n <==> forall i :: 0 <= i < n - 1 ==> !fails(i)
  {
    var h := Handled(n, fails);
    if h < n {
      assert fails(h - 1);
    }
  }

  // ----- sending over connections that come and go -----

  /** One try to send: whether a connection could be opened if needed, and how many bytes went out. */
  datatype Attempt = Attempt(vector: FeatureVector, connects: bool, written: nat)

  /** Each connection's bytes so far; only the last can be open. */
  datatype Sender = Sender(links: seq<Bytes>, open: bool)

  predicate Succeeds(s: Sender, a: Attempt) {
    (s.open || a.connects) && a.written >= FRAME
  }

  function Send(s: Sender, a: Attempt): Sender {
    if !s.open && !a.connects then s
    else
      var links := if s.open then s.links else s.links + [[]];
      if links == [] then s
      else
        var n := |links| - 1;
        if a.written >= FRAME then Sender(links[n := links[n] + Encode(a.vector)], true)
        else Sender(links[n := links[n] + Encode(a.vector)[..a.written]], false)
  }

  class IpcSocket {
    var links: seq<Bytes>
    var open: bool

    predicate Valid()
      reads this
    {
      open ==> links != []
    }

    constructor ()
      ensures Valid() && links == [] && !open
    {
      links, open := [], false;
    }

    method EnsureConnected(connects: bool) returns (ok: bool)
      requires Valid()
      modifies this
      ensures Valid() && ok == open == (old(open) || connects)
      ensures links == if old(open) || !connects then old(links) else old(links) + [[]]
    {
      if open {
        return true;
      }
      if connects {
        links, open := links + [[]], true;
      }
      ok := connects;
    }

    /** Any write error, even part way through a frame, drops the connection. */
    method SendVector(v: FeatureVector, connects: bool, written: nat) returns (ok: bool)
      requires Valid()
      modifies this
      ensures Valid() && Sender(links, open) == Send(old(Sender(links, open)), Attempt(v, connects, written))
      ensures ok == Succeeds(old(Sender(links, open)), Attempt(v, connects, written))
    {
      var ready := EnsureConnected(connects);
      if !ready {
        return false;
      }
      var bytes := ToBytes(v);
      var n := |links| - 1;
      if written < |bytes| {
        links := links[n := links[n] + bytes[..written]];
        open := false;
        return false;
      }
      links := links[n := links[n] + bytes];
      ok := true;
    }
  }

  function SendAll(attempts: seq<Attempt>): Sender {
    if attempts == [] then Sender([], false)
    else Send(SendAll(attempts[..|attempts| - 1]), attempts[|attempts| - 1])
  }

  /** The vectors whose send reported success. */
  function Delivered(attempts: seq<Attempt>): seq<FeatureVector> {
    if attempts == [] then []
    else
      var init, a := attempts[..|attempts| - 1], attempts[|attempts| - 1];
      Delivered(init) + if Succeeds(SendAll(init), a) then [AsReceived(a.vector)] else []
  }

  /**
   A vector is delivered exactly when a connection is open or can be opened and all 216 bytes go out, and the connection
   is open afterwards exactly then; so it is open exactly after a delivery.
   */
  lemma DeliveredIff(attempts: seq<Attempt>, a: Attempt)
    ensures var sent := (SendAll(attempts).open || a.connects) && a.written >= 216;
            && Delivered(attempts + [a]) == Delivered(attempts) + (if sent then [AsReceived(a.vector)] else [])
            && SendAll(attempts + [a]).open == sent
  {
    hide Encode;
    assert (attempts + [a])[..|attempts|] == attempts;
    assert SendAll(attempts + [a]) == Send(SendAll(attempts), a);
    OpenHasLink(attempts);
  }

  lemma {:induction false} OpenHasLink(attempts: seq<Attempt>)
    ensures SendAll(attempts).open ==> SendAll(attempts).links != []
  {
    hide Encode;
    if attempts != [] {
      OpenHasLink(attempts[..|attempts| - 1]);
    }
  }

  function DecodeFrames(fs: seq<Bytes>): seq<FeatureVector>
    requires forall i :: 0 <= i < |fs| ==> |fs[i]| == FRAME
  {
    seq(|fs|, i requires 0 <= i < |fs| => Decode(fs[i]))
  }

  lemma {:induction false} FramesSized(b: Bytes)
    ensures forall i :: 0 <= i < |Frames(b)| ==> |Frames(b)[i]| == FRAME
    decreases |b|
  {
    if |b| >= FRAME {
      FramesSized(b[FRAME..]);
    }
  }

  /** What the receiver decodes from one connection. */
  function Heard(b: Bytes): seq<FeatureVector> {
    FramesSized(b);
    DecodeFrames(Frames(b))
  }

  function HeardOn(links: seq<Bytes>): seq<FeatureVector> {
    if links == [] then [] else HeardOn(links[..|links| - 1]) + Heard(links[|links| - 1])
  }

  /** A whole number of frames does not affect how later bytes are framed. */
  lemma {:induction false} FramesAppend(b: Bytes, more: Bytes, k: nat)
    requires |b| == FRAME * k
    ensures Frames(b + more) == Frames(b) + Frames(more)
    decreases k
  {
    hide Frames;
    if k == 0 {
      assert b + more == more;
      FramesHead(b);
    } else {
      FramesAppend(b[FRAME..], more, k - 1);
      FramesHead(b);
      FramesHead(b + more);
      SplitAppend(b, more);
    }
  }

  lemma FramesHead(b: Bytes)
    ensures Frames(b) == if |b| < FRAME then [] else [b[..FRAME]] + Frames(b[FRAME..])
  {
  }

  lemma SplitAppend(b: Bytes, more: Bytes)
    requires |b| >= FRAME
    ensures (b + more)[..FRAME] == b[..FRAME] && (b + more)[FRAME..] == b[FRAME..] + more
  {
  }

  lemma HeardAppend(b: Bytes, v: FeatureVector, written: nat, k: nat)
    requires |b| == FRAME * k
    ensures Heard(b + Encode(v)) == Heard(b) + [AsReceived(v)]
    ensures written < FRAME ==> Heard(b + Encode(v)[..written]) == Heard(b)
  {
    hide Encode, Decode;
    FramesAppend(b, Encode(v), k);
    DecodeEncode(v);
    var e := Encode(v);
    assert e[..FRAME] == e && e[FRAME..] == [];
    assert Frames(e) == [e];
    FramesSized(b);
    FramesSized(b + e);
    assert Heard(b + e) == Heard(b) + [Decode(e)];
    if written < FRAME {
      FramesAppend(b, e[..written], k);
    }
  }

  /** An open connection has carried a whole number of frames. */
  ghost predicate Aligned(s: Sender) {
    s.open ==> s.links != [] && exists k: nat :: |s.links[|s.links| - 1]| == FRAME * k
  }

  lemma HeardOnStep(links: seq<Bytes>, b: Bytes)
    requires links != []
    ensures HeardOn(links[|links| - 1 := b]) == HeardOn(links[..|links| - 1]) + Heard(b)
    ensures HeardOn(links + [[]]) == HeardOn(links)
  {
  }

  lemma SendStep(s: Sender, a: Attempt)
    requires Aligned(s)
    ensures Aligned(Send(s, a))
    ensures HeardOn(Send(s, a).links) == HeardOn(s.links) + if Succeeds(s, a) then [AsReceived(a.vector)] else []
  {
    hide Heard, HeardOn, Encode, AsReceived;
    if s.open || a.connects {
      var links := if s.open then s.links else s.links + [[]];
      var n := |links| - 1;
      OpenLink(s.links);
      var k: nat :| |links[n]| == FRAME * k;
      HeardAppend(links[n], a.vector, a.written, k);
      HeardOnStep(links, Send(s, a).links[n]);
      HeardOnStep(links, links[n]);
      assert links[n := links[n]] == links;
      if a.written >= FRAME {
        assert |links[n] + Encode(a.vector)| == FRAME * (k + 1);
      }
    }
  }

  lemma OpenLink(links: seq<Bytes>)
    ensures HeardOn(links + [[]]) == HeardOn(links)
    ensures |(links + [[]])[|links|]| == FRAME * 0
  {
  }

  /**
   Whatever connections fail, even mid-frame, what is decoded over all connections is exactly the
   vectors whose send succeeded, in order.
   */
  lemma {:induction false} DecodedIsDelivered(attempts: seq<Attempt>)
    ensures Aligned(SendAll(attempts))
    ensures HeardOn(SendAll(attempts).links) == Delivered(attempts)
  {
    hide Send, HeardOn, Succeeds, AsReceived, Aligned;
    if attempts == [] {
      NothingHeard();
    } else {
      var init, a := attempts[..|attempts| - 1], attempts[|attempts| - 1];
      DecodedIsDelivered(init);
      SendStep(SendAll(init), a);
    }
  }

  lemma NothingHeard()
    ensures HeardOn([]) == [] && Aligned(Sender([], false))
  {
  }

  // ----- connection by connection -----

  /** The vectors delivered on each connection. */
  function DeliveredOn(attempts: seq<Attempt>): (r: seq<seq<FeatureVector>>)
    ensures |r| == |SendAll(attempts).links|
  {
    if attempts == [] then []
    else
      var init, a := attempts[..|attempts| - 1], attempts[|attempts| - 1];
      var s, prev := SendAll(init), DeliveredOn(init);
      var groups := if s.open || !a.connects then prev else prev + [[]];
      if Succeeds(s, a) && groups != [] then groups[|groups| - 1 := groups[|groups| - 1] + [AsReceived(a.vector)]] else groups
  }

  /** Each connection carries exactly its own delivered vectors. */
  lemma {:induction false} LinkByLink(attempts: seq<Attempt>)
    ensures forall i :: 0 <= i < |SendAll(attempts).links| ==> Heard(SendAll(attempts).links[i]) == DeliveredOn(attempts)[i]
  {
    hide Heard, Encode, AsReceived;
    if attempts != [] {
      var init, a := attempts[..|attempts| - 1], attempts[|attempts| - 1];
      LinkByLink(init);
      DecodedIsDelivered(init);
      var s := SendAll(init);
      if s.open || a.connects {
        var links := if s.open then s.links else s.links + [[]];
        var n := |links| - 1;
        OpenLink(s.links);
        assert Heard([]) == [] by { NothingOn(); }
        var k: nat :| |links[n]| == FRAME * k;
        HeardAppend(links[n], a.vector, a.written, k);
      }
    }
  }

  lemma NothingOn()
    ensures Heard([]) == []
  {
  }

  /**
   With errors while handling frames, what is decoded on a connection is a prefix of what was delivered on it, and all
   of it exactly when no frame but the last raised one.
   */
  lemma AbandonedTail(attempts: seq<Attempt>, i: nat, fails: nat -> bool)
    requires i < |SendAll(attempts).links|
    ensures var heard := Heard(SendAll(attempts).links[i]);
            var decoded := heard[..Handled(|heard|, fails)];
            && decoded <= DeliveredOn(attempts)[i]
            && (decoded == DeliveredOn(attempts)[i] <==> forall j :: 0 <= j < |heard| - 1 ==> !fails(j))
  {
    hide Heard, DeliveredOn, SendAll, Handled;
    LinkByLink(attempts);
    HandledAll(|Heard(SendAll(attempts).links[i])|, fails);
  }
}
