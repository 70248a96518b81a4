/** The byte relay of src/datathread.cc: `SRead`, `SWrite` and the speed loop between them. */
module Relays {

  newtype byte = b: int | 0 <= b < 256

  /** What one `send` or `SSL_write` returns. `wanted` tells the retryable TLS errors apart. */
  datatype SendResult = Sent(n: nat) | SendClosed | SendFailed(wanted: bool)

  /** What one `recv` or `SSL_read` returns. */
  datatype RecvResult = Data(bytes: seq<byte>) | RecvClosed | RecvFailed(wanted: bool)

  /** A positive result is between 1 and the number of bytes offered. */
  function Accepted(n: nat, offered: nat): (m: nat)
    requires offered > 0
    ensures 1 <= m <= offered
  {
    if n == 0 then 1 else if n > offered then offered else n
  }

  function Fitting(bytes: seq<byte>, size: nat): (r: seq<byte>)
    ensures |r| <= size
  {
    if |bytes| <= size then bytes else bytes[..size]
  }

  /** A socket as its user sees it: the k-th call on it has a result fixed by the outside world.
      `delivered` is what the peer has got, `consumed` what was taken from the peer. */
  class Socket {
    const ssl: bool
    const sends: nat -> SendResult
    const recvs: nat -> RecvResult
    var sendCalls: nat
    var recvCalls: nat
    var delivered: seq<byte>
    var consumed: seq<byte>

    constructor (ssl: bool, sends: nat -> SendResult, recvs: nat -> RecvResult)
      ensures this.ssl == ssl && this.sends == sends && this.recvs == recvs
      ensures sendCalls == 0 && recvCalls == 0 && delivered == [] && consumed == []
    {
      this.ssl := ssl;
      this.sends := sends;
      this.recvs := recvs;
      sendCalls, recvCalls := 0, 0;
      delivered, consumed := [], [];
    }

    method Send(data: array<byte>, from: nat, len: nat) returns (rc: int, wanted: bool)
      requires 0 < len && from + len <= data.Length
      modifies `sendCalls, `delivered
      ensures sendCalls == old(sendCalls) + 1
      ensures match sends(old(sendCalls))
        case Sent(n) => rc == Accepted(n, len) && delivered == old(delivered) + data[from..from + rc]
        case SendClosed => rc == 0 && delivered == old(delivered)
        case SendFailed(w) => rc < 0 && wanted == w && delivered == old(delivered)
    {
      wanted := false;
      match sends(sendCalls) {
        case Sent(n) =>
          rc := Accepted(n, len);
          delivered := delivered + data[from..from + rc];
        case SendClosed =>
          rc := 0;
        case SendFailed(w) =>
          rc, wanted := -1, w;
      }
      sendCalls := sendCalls + 1;
    }

    method Recv(buffer: array<byte>) returns (rc: int, wanted: bool)
      modifies `recvCalls, `consumed, buffer
      ensures recvCalls == old(recvCalls) + 1
      ensures match recvs(old(recvCalls))
        case Data(bytes) =>
          var got := Fitting(bytes, buffer.Length);
          rc == |got| && buffer[..rc] == got && consumed == old(consumed) + got
        case RecvClosed => rc == 0 && consumed == old(consumed)
        case RecvFailed(w) => rc < 0 && wanted == w && consumed == old(consumed)
    {
      wanted := false;
      match recvs(recvCalls) {
        case Data(bytes) =>
          var got := Fitting(bytes, buffer.Length);
          rc := |got|;
          forall i | 0 <= i < |got| {
            buffer[i] := got[i];
          }
          consumed := consumed + got;
        case RecvClosed =>
          rc := 0;
        case RecvFailed(w) =>
          rc, wanted := -1, w;
      }
      recvCalls := recvCalls + 1;
    }
  }

  // SWrite

  /** From call `k` on, with `total` of `nrbytes` bytes sent: whether the rest goes out too, how many
      bytes are sent in the end, and the number of the call after the last one made. */
  function Sending(sends: nat -> SendResult, ssl: bool, k: nat, total: nat, nrbytes: nat, count: nat, retry: nat): (bool, nat, nat)
    requires total <= nrbytes && count <= retry
    decreases nrbytes - total, retry - count
  {
    if total == nrbytes then (true, total, k)
    else
      match sends(k)
      case Sent(n) => Sending(sends, ssl, k + 1, total + Accepted(n, nrbytes - total), nrbytes, count, retry)
      case SendClosed => (false, total, k + 1)
      case SendFailed(wanted) =>
        if count < retry && ssl && wanted then Sending(sends, ssl, k + 1, total, nrbytes, count + 1, retry)
        else (false, total, k + 1)
  }

  /** All bytes go out exactly on success, never more than offered, and the calls are bounded by the
      bytes and the retries. */
  lemma {:induction false} SendingFacts(sends: nat -> SendResult, ssl: bool, k: nat, total: nat, nrbytes: nat, count: nat, retry: nat)
    requires total <= nrbytes && count <= retry
    ensures var (ok, sent, k') := Sending(sends, ssl, k, total, nrbytes, count, retry);
      && total <= sent <= nrbytes && (ok <==> sent == nrbytes)
      && k <= k' <= k + (nrbytes - total) + (retry - count) + 1
      && (!ssl && !ok ==> k' <= k + (sent - total) + 1)
    decreases nrbytes - total, retry - count
  {
    if total < nrbytes {
      match sends(k)
      case Sent(n) => SendingFacts(sends, ssl, k + 1, total + Accepted(n, nrbytes - total), nrbytes, count, retry);
      case SendClosed =>
      case SendFailed(wanted) =>
        if count < retry && ssl && wanted {
          SendingFacts(sends, ssl, k + 1, total, nrbytes, count + 1, retry);
        }
    }
  }

  /** How often a call wanted to be made again. */
  function Wanted(sends: nat -> SendResult, k: nat, calls: nat): nat {
    if calls == 0 then 0
    else Wanted(sends, k, calls - 1) + if sends(k + calls - 1) == SendFailed(true) then 1 else 0
  }

  /** The bytes that some calls in a row bring out of `nrbytes`. */
  function Out(sends: nat -> SendResult, k: nat, nrbytes: nat, calls: nat): (n: nat)
    ensures n <= nrbytes
  {
    if calls == 0 then 0
    else
      var n := Out(sends, k, nrbytes, calls - 1);
      match sends(k + calls - 1)
      case Sent(m) => if n < nrbytes then n + Accepted(m, nrbytes - n) else n
      case _ => n
  }

  /** Whether another call is made after one that came when `wanted` calls had wanted to be made again. */
  predicate GoesOn(result: SendResult, ssl: bool, wanted: nat, retry: nat) {
    match result
    case Sent(_) => true
    case SendClosed => false
    case SendFailed(again) => ssl && again && wanted < retry
  }

  /** What `SWrite` does from call `k` to before call `k'`: it goes on exactly while bytes are left and no call
      failed for good, so the calls before the last one went on, and the last one finished the job or
      failed for good. */
  ghost predicate SendsExactly(sends: nat -> SendResult, ssl: bool, k: nat, k': nat, sent: nat, nrbytes: nat, retry: nat)
    requires k <= k'
  {
    && sent == Out(sends, k, nrbytes, k' - k)
    && (forall i: nat | i < k' - k :: Out(sends, k, nrbytes, i) < nrbytes)
    && (forall i: nat | i + 1 < k' - k :: GoesOn(sends(k + i), ssl, Wanted(sends, k, i), retry))
    && (sent < nrbytes ==> k' > k && !GoesOn(sends(k' - 1), ssl, Wanted(sends, k, k' - k - 1), retry))
  }

  lemma SendingExactly(sends: nat -> SendResult, ssl: bool, k: nat, nrbytes: nat, retry: nat)
    ensures var (ok, sent, k') := Sending(sends, ssl, k, 0, nrbytes, 0, retry);
      k' >= k && SendsExactly(sends, ssl, k, k', sent, nrbytes, retry) && (ok <==> sent == nrbytes)
  {
    SendingFrom(sends, ssl, k, 0, nrbytes, retry);
  }

  /** The same after `made` calls that went on. */
  lemma {:induction false} SendingFrom(sends: nat -> SendResult, ssl: bool, k: nat, made: nat, nrbytes: nat, retry: nat)
    requires Wanted(sends, k, made) <= retry
    requires forall i: nat | i < made :: Out(sends, k, nrbytes, i) < nrbytes
    requires forall i: nat | i < made :: GoesOn(sends(k + i), ssl, Wanted(sends, k, i), retry)
    ensures var (ok, sent, k') := Sending(sends, ssl, k + made, Out(sends, k, nrbytes, made), nrbytes, Wanted(sends, k, made), retry);
      k' >= k && SendsExactly(sends, ssl, k, k', sent, nrbytes, retry) && (ok <==> sent == nrbytes)
    decreases nrbytes - Out(sends, k, nrbytes, made), retry - Wanted(sends, k, made)
  {
    if Out(sends, k, nrbytes, made) < nrbytes {
      if GoesOn(sends(k + made), ssl, Wanted(sends, k, made), retry) {
        SendingFrom(sends, ssl, k, made + 1, nrbytes, retry);
      } else {
        FailsForGood(sends, ssl, k, made, nrbytes, retry);
      }
    }
  }

  lemma FailsForGood(sends: nat -> SendResult, ssl: bool, k: nat, made: nat, nrbytes: nat, retry: nat)
    requires Out(sends, k, nrbytes, made) < nrbytes && !GoesOn(sends(k + made), ssl, Wanted(sends, k, made), retry)
    requires forall i: nat | i < made :: Out(sends, k, nrbytes, i) < nrbytes
    requires forall i: nat | i < made :: GoesOn(sends(k + i), ssl, Wanted(sends, k, i), retry)
    ensures SendsExactly(sends, ssl, k, k + made + 1, Out(sends, k, nrbytes, made), nrbytes, retry)
  {
    assert k + made + 1 - k - 1 == made && k + (made + 1) - 1 == k + made;
  }

  method SWrite(sock: Socket, data: array<byte>, nrbytes: nat, retry_count: nat) returns (ok: bool)
    requires nrbytes <= data.Length
    modifies sock`sendCalls, sock`delivered
    ensures var (done, sent, calls) := Sending(sock.sends, sock.ssl, old(sock.sendCalls), 0, nrbytes, 0, retry_count);
      && ok == done && sent <= nrbytes && (ok <==> sent == nrbytes)
      && sock.delivered == old(sock.delivered) + data[..sent]
      && sock.sendCalls == calls
  {
    var total, bytesleft, count := 0, nrbytes, 0;
    ghost var spec := Sending(sock.sends, sock.ssl, sock.sendCalls, 0, nrbytes, 0, retry_count);
    SendingFacts(sock.sends, sock.ssl, sock.sendCalls, 0, nrbytes, 0, retry_count);
    while total < nrbytes
      invariant 0 <= total <= nrbytes && total + bytesleft == nrbytes && 0 <= count <= retry_count
      invariant sock.delivered == old(sock.delivered) + data[..total]
      invariant Sending(sock.sends, sock.ssl, sock.sendCalls, total, nrbytes, count, retry_count) == spec
      decreases nrbytes - total, retry_count - count
    {
      var rc, wanted := sock.Send(data, total, bytesleft);
      if rc > 0 {
        assert data[..total] + data[total..total + rc] == data[..total + rc];
        total := total + rc;
        bytesleft := bytesleft - rc;
      } else if rc == 0 {
        return false;
      } else {
        if count == retry_count {
          return false;
        }
        if sock.ssl {
          if wanted {
            count := count + 1;
            continue;
          } else {
            return false;
          }
        }
        return false;
      }
    }
    return true;
  }

  // SRead

  /** The bytes of the first successful read, if any, and the number of the call after the last. */
  function Receiving(recvs: nat -> RecvResult, ssl: bool, k: nat, size: nat, count: nat, retry: nat): (seq<byte>, nat)
    requires count <= retry
    decreases retry - count
  {
    match recvs(k)
    case Data(bytes) => (Fitting(bytes, size), k + 1)
    case RecvClosed => ([], k + 1)
    case RecvFailed(wanted) =>
      if count < retry && ssl && wanted then Receiving(recvs, ssl, k + 1, size, count + 1, retry)
      else ([], k + 1)
  }

  /** `SRead` gives up after at most retry_count + 1 calls. */
  lemma {:induction false} ReceivingFacts(recvs: nat -> RecvResult, ssl: bool, k: nat, size: nat, count: nat, retry: nat)
    requires count <= retry
    ensures var (got, k') := Receiving(recvs, ssl, k, size, count, retry);
      |got| <= size && k < k' <= k + (retry - count) + 1
    decreases retry - count
  {
    match recvs(k)
    case RecvFailed(wanted) =>
      if count < retry && ssl && wanted {
        ReceivingFacts(recvs, ssl, k + 1, size, count + 1, retry);
      }
    case _ =>
  }

  /** What `SRead` does, by its calls: a TLS call that wants to be made again is, up to the retry count; the
      last call decides, and what it read is what there is. */
  lemma {:induction false} ReceivingExactly(recvs: nat -> RecvResult, ssl: bool, k: nat, size: nat, count: nat, retry: nat)
    requires count <= retry
    ensures var (got, k') := Receiving(recvs, ssl, k, size, count, retry);
      && k' > k
      && (forall i | k <= i < k' - 1 :: recvs(i) == RecvFailed(true) && ssl)
      && count + (k' - 1 - k) <= retry
      && (recvs(k' - 1) == RecvFailed(true) && ssl ==> count + (k' - 1 - k) == retry)
      && got == (if recvs(k' - 1).Data? then Fitting(recvs(k' - 1).bytes, size) else [])
    decreases retry - count
  {
    if recvs(k) == RecvFailed(true) && ssl && count < retry {
      ReceivingExactly(recvs, ssl, k + 1, size, count + 1, retry);
    }
  }

  method SRead(sock: Socket, buffer: array<byte>, retry_count: nat) returns (ok: bool, nrbytes: nat)
    modifies sock`recvCalls, sock`consumed, buffer
    ensures var (got, calls) := Receiving(sock.recvs, sock.ssl, old(sock.recvCalls), buffer.Length, 0, retry_count);
      && (ok <==> got != []) && nrbytes == |got| <= buffer.Length
      && buffer[..nrbytes] == got
      && sock.consumed == old(sock.consumed) + got
      && sock.recvCalls == calls
  {
    ok, nrbytes := false, 0;
    var count := 0;
    var again := true;
    ghost var spec := Receiving(sock.recvs, sock.ssl, sock.recvCalls, buffer.Length, 0, retry_count);
    while again
      invariant again ==> 0 <= count <= retry_count && nrbytes == 0 && !ok
      invariant again ==> sock.consumed == old(sock.consumed)
      invariant again ==> spec == Receiving(sock.recvs, sock.ssl, sock.recvCalls, buffer.Length, count, retry_count)
      invariant !again ==> (ok <==> spec.0 != []) && nrbytes == |spec.0| <= buffer.Length && buffer[..nrbytes] == spec.0
      invariant !again ==> sock.consumed == old(sock.consumed) + spec.0 && sock.recvCalls == spec.1
      decreases again, retry_count - count
    {
      var rc, wanted := sock.Recv(buffer);
      again := false;
      if rc > 0 {
        ok, nrbytes := true, rc;
      } else if rc == 0 {
        nrbytes := 0;
      } else if count == retry_count {
        // not more than retry_count retries
      } else if sock.ssl && wanted {
        count := count + 1;
        again := true;
      }
    }
  }

  // The loop, turn by turn

  /** What decides on a relay: the results of the calls on both sockets, from the calls that are next. */
  datatype Relay = Relay(
    recvs: nat -> RecvResult,
    recvSsl: bool,
    sends: nat -> SendResult,
    sendSsl: bool,
    size: nat,
    retry: nat,
    firstRecv: nat,
    firstSend: nat,
    quit: nat -> bool)
  {
    /** The number of the first read of turn `t`, if the turns before went through. */
    function RecvAt(t: nat): nat {
      if t == 0 then firstRecv else Receiving(recvs, recvSsl, RecvAt(t - 1), size, 0, retry).1
    }

    /** What turn `t` reads. */
    function Chunk(t: nat): seq<byte> {
      Receiving(recvs, recvSsl, RecvAt(t), size, 0, retry).0
    }

    /** And the number of its first write. */
    function SendAt(t: nat): nat {
      if t == 0 then firstSend else Sending(sends, sendSsl, SendAt(t - 1), 0, |Chunk(t - 1)|, 0, retry).2
    }

    /** How much of its chunk turn `t` writes. */
    function Written(t: nat): (n: nat)
      ensures n <= |Chunk(t)|
    {
      SendingFacts(sends, sendSsl, SendAt(t), 0, |Chunk(t)|, 0, retry);
      Sending(sends, sendSsl, SendAt(t), 0, |Chunk(t)|, 0, retry).1
    }

    /** Turn `t` takes place, reads something and writes all of it. */
    predicate GoesThrough(t: nat) {
      !quit(t) && Chunk(t) != [] && Written(t) == |Chunk(t)|
    }

    /** The first `t` turns go through, and the next one, of `turns`, does not. */
    ghost predicate Ends(t: nat, turns: nat) {
      t <= turns && (forall i: nat | i < t :: GoesThrough(i)) && (t < turns ==> !GoesThrough(t))
    }

    /** What the turns before `t` have read. */
    function Chunks(t: nat): seq<byte> {
      if t == 0 then [] else Chunks(t - 1) + Chunk(t - 1)
    }

    /** What has been read when turn `t` is where the loop ends: a chunk that could not be written, too. */
    function Read(t: nat, turns: nat): seq<byte> {
      Chunks(t) + if t < turns && !quit(t) then Chunk(t) else []
    }

    /** And what has been written. */
    function Sent(t: nat, turns: nat): seq<byte> {
      Chunks(t) + if t < turns && !quit(t) then Chunk(t)[..Written(t)] else []
    }
  }

  /** The loop ends at one turn only, so it ends where it has to. */
  lemma EndsOnce(r: Relay, t: nat, u: nat, turns: nat)
    requires r.Ends(t, turns) && r.Ends(u, turns)
    ensures t == u
  {
  }

  /** The loop ends before its time only for a quit, for a read that was the last one of its turn and gave
      nothing, or for a write that was the last one of its turn and failed for good. */
  lemma WhyItEnds(r: Relay, t: nat, turns: nat)
    requires r.Ends(t, turns) && t < turns && !r.quit(t)
    ensures var (read, write) := (r.RecvAt(t + 1) - 1, r.SendAt(t + 1) - 1);
      || (read >= r.RecvAt(t) && GivesUp(r, t, read))
      || (write >= r.SendAt(t) && !GoesOn(r.sends(write), r.sendSsl, Wanted(r.sends, r.SendAt(t), write - r.SendAt(t)), r.retry))
  {
    ReceivingExactly(r.recvs, r.recvSsl, r.RecvAt(t), r.size, 0, r.retry);
    SendingExactly(r.sends, r.sendSsl, r.SendAt(t), |r.Chunk(t)|, r.retry);
  }

  /** The read gives nothing and is not made again: it failed otherwise than by wanting that, or often
      enough already. */
  predicate GivesUp(r: Relay, t: nat, k: nat) {
    match r.recvs(k)
    case Data(bytes) => Fitting(bytes, r.size) == []
    case RecvClosed => true
    case RecvFailed(again) => !r.recvSsl || !again || k - r.RecvAt(t) == r.retry
  }

  /** At the end everything read has been written, unless a write has failed; and what is lost then is less
      than one buffer. */
  lemma LosesOnlyAtFailure(r: Relay, t: nat, turns: nat)
    requires r.Ends(t, turns)
    ensures r.Sent(t, turns) <= r.Read(t, turns)
    ensures r.Sent(t, turns) == r.Read(t, turns) <==> !(t < turns && !r.quit(t) && r.Written(t) < |r.Chunk(t)|)
    ensures |r.Read(t, turns)| <= |r.Sent(t, turns)| + r.size
  {
    ReceivingFacts(r.recvs, r.recvSsl, r.RecvAt(t), r.size, 0, r.retry);
    PrefixOfSum(r.Chunks(t), r.Chunk(t)[..r.Written(t)], r.Chunk(t));
  }

  /** The reads one after the other. */
  function AllRead(recvs: nat -> RecvResult, k: nat, size: nat, n: nat): seq<byte> {
    if n == 0 then [] else AllRead(recvs, k, size, n - 1) + if recvs(k + n - 1).Data? then Fitting(recvs(k + n - 1).bytes, size) else []
  }

  lemma {:induction false} WritesAll(sends: nat -> SendResult, ssl: bool, k: nat, total: nat, nrbytes: nat, retry: nat)
    requires total <= nrbytes && forall i :: sends(i).Sent?
    ensures Sending(sends, ssl, k, total, nrbytes, 0, retry).0 && Sending(sends, ssl, k, total, nrbytes, 0, retry).1 == nrbytes
    decreases nrbytes - total
  {
    if total < nrbytes {
      WritesAll(sends, ssl, k + 1, total + Accepted(sends(k).n, nrbytes - total), nrbytes, retry);
    }
  }

  /** Where nobody quits, the next `n` reads give something and no write fails, `n` turns deliver exactly the
      `n` chunks read. */
  lemma {:induction false} UndisturbedRelay(r: Relay, n: nat)
    requires forall i: nat | i < n :: !r.quit(i)
    requires forall k | r.firstRecv <= k < r.firstRecv + n :: ReadsSome(r, k)
    requires forall i :: r.sends(i).Sent?
    ensures r.Ends(n, n) && r.RecvAt(n) == r.firstRecv + n
    ensures r.Sent(n, n) == r.Read(n, n) == AllRead(r.recvs, r.firstRecv, r.size, n)
  {
    if n > 0 {
      UndisturbedRelay(r, n - 1);
      assert ReadsSome(r, r.firstRecv + (n - 1));
      WritesAll(r.sends, r.sendSsl, r.SendAt(n - 1), 0, |r.Chunk(n - 1)|, r.retry);
      assert r.GoesThrough(n - 1);
      assert r.Chunks(n) + [] == r.Chunks(n) && r.Chunks(n - 1) + [] == r.Chunks(n - 1);
    }
  }

  predicate ReadsSome(r: Relay, k: nat) {
    r.recvs(k).Data? && Fitting(r.recvs(k).bytes, r.size) != []
  }

  /** The relay that is set up between two sockets as they are. */
  function Between(from: Socket, to: Socket, buffer: array<byte>, retry_count: nat, quit: nat -> bool): Relay
    reads from, to
  {
    Relay(from.recvs, from.ssl, to.sends, to.ssl, buffer.Length, retry_count, from.recvCalls, to.sendCalls, quit)
  }

  /** Both directions of the speed loop, with `turns` bounding how much of a run is looked at.
      `quit(t)` is what `getQuit` answers before turn t; `done` is how many turns went through. */
  method SpeedLoop(direction: string, site: Socket, client: Socket, buffer: array<byte>, retry_count: nat,
                   quit: nat -> bool, turns: nat)
    returns (done: nat)
    requires site != client
    modifies site, client, buffer
    ensures var (from, to) := if direction == "download" then (site, client) else (client, site);
      var r := old(Between(from, to, buffer, retry_count, quit));
      && r.Ends(done, turns)
      && from.consumed == old(from.consumed) + r.Read(done, turns)
      && to.delivered == old(to.delivered) + r.Sent(done, turns)
      && to.consumed == old(to.consumed) && from.delivered == old(from.delivered)
  {
    if direction == "download" {
      done := Pump(site, client, buffer, retry_count, quit, turns);
    } else {
      done := Pump(client, site, buffer, retry_count, quit, turns);
    }
  }

  /** One direction, turn by turn until one does not go through. */
  method Pump(from: Socket, to: Socket, buffer: array<byte>, retry_count: nat, quit: nat -> bool, turns: nat) returns (done: nat)
    requires from != to
    modifies from`recvCalls, from`consumed, to`sendCalls, to`delivered, buffer
    ensures var r := old(Between(from, to, buffer, retry_count, quit));
      && r.Ends(done, turns)
      && from.consumed == old(from.consumed) + r.Read(done, turns)
      && to.delivered == old(to.delivered) + r.Sent(done, turns)
  {
    done := 0;
    ghost var r := Between(from, to, buffer, retry_count, quit);
    ghost var read, written := from.consumed, to.delivered;
    while done < turns && !quit(done)
      invariant done <= turns && forall i: nat | i < done :: r.GoesThrough(i)
      invariant from.recvCalls == r.RecvAt(done) && to.sendCalls == r.SendAt(done)
      invariant from.consumed == read + r.Chunks(done) && to.delivered == written + r.Chunks(done)
    {
      var ok := PassOn(from, to, buffer, retry_count, r, done);
      OneMoreTurn(r, done, turns, read, written);
      if !ok {
        return;
      }
      done := done + 1;
    }
    assert r.Chunks(done) + [] == r.Chunks(done);
  }

  lemma OneMoreTurn(r: Relay, t: nat, turns: nat, read: seq<byte>, written: seq<byte>)
    requires t < turns && !r.quit(t)
    ensures read + r.Chunks(t) + r.Chunk(t) == read + r.Read(t, turns)
    ensures written + r.Chunks(t) + r.Chunk(t)[..r.Written(t)] == written + r.Sent(t, turns)
    ensures r.Read(t, turns) == r.Chunks(t + 1)
    ensures r.Written(t) == |r.Chunk(t)| ==> r.Sent(t, turns) == r.Chunks(t + 1)
  {
  }

  /** One turn. */
  method PassOn(from: Socket, to: Socket, buffer: array<byte>, retry_count: nat, ghost r: Relay, ghost t: nat) returns (ok: bool)
    requires from != to && buffer.Length == r.size && retry_count == r.retry
    requires from.recvs == r.recvs && from.ssl == r.recvSsl && to.sends == r.sends && to.ssl == r.sendSsl
    requires from.recvCalls == r.RecvAt(t) && to.sendCalls == r.SendAt(t)
    modifies from`recvCalls, from`consumed, to`sendCalls, to`delivered, buffer
    ensures ok <==> r.Chunk(t) != [] && r.Written(t) == |r.Chunk(t)|
    ensures ok ==> from.recvCalls == r.RecvAt(t + 1) && to.sendCalls == r.SendAt(t + 1)
    ensures from.consumed == old(from.consumed) + r.Chunk(t)
    ensures to.delivered == old(to.delivered) + r.Chunk(t)[..r.Written(t)]
  {
    var rc;
    ok, rc := SRead(from, buffer, retry_count);
    if !ok {
      return;
    }
    ghost var chunk := r.Chunk(t);
    assert buffer[..rc] == chunk && rc == |chunk|;
    ok := SWrite(to, buffer, rc, retry_count);
    assert buffer[..r.Written(t)] == chunk[..r.Written(t)];
  }

  lemma PrefixOfSum<T>(a: seq<T>, b: seq<T>, c: seq<T>)
    requires b <= c
    ensures a + b <= a + c
  {
    assert c == b + c[|b|..];
  }

  // Negative retry counts

  datatype Progress<T> = Running | Done(result: T)

  /** `steps` turns of the loop in `SWrite` with a configured retry count that may be negative. */
  function SendingSteps(sends: nat -> SendResult, ssl: bool, k: nat, total: nat, nrbytes: nat, count: nat, retry: int, steps: nat): Progress<bool>
    requires total <= nrbytes
    decreases steps
  {
    if total == nrbytes then Done(true)
    else if steps == 0 then Running
    else
      match sends(k)
      case Sent(n) => SendingSteps(sends, ssl, k + 1, total + Accepted(n, nrbytes - total), nrbytes, count, retry, steps - 1)
      case SendClosed => Done(false)
      case SendFailed(wanted) =>
        if count != retry && ssl && wanted then SendingSteps(sends, ssl, k + 1, total, nrbytes, count + 1, retry, steps - 1)
        else Done(false)
  }

  /** With a retry count of 0 or more the loop ends within the bound of `SendingFacts` and agrees with
      `Sending`. */
  lemma {:induction false} StepsReachTheEnd(sends: nat -> SendResult, ssl: bool, k: nat, total: nat, nrbytes: nat, count: nat, retry: nat, steps: nat)
    requires total <= nrbytes && count <= retry
    requires steps >= (nrbytes - total) + (retry - count) + 1
    ensures SendingSteps(sends, ssl, k, total, nrbytes, count, retry, steps)
         == Done(Sending(sends, ssl, k, total, nrbytes, count, retry).0)
    decreases nrbytes - total, retry - count
  {
    if total < nrbytes {
      match sends(k)
      case Sent(n) =>
        StepsReachTheEnd(sends, ssl, k + 1, total + Accepted(n, nrbytes - total), nrbytes, count, retry, steps - 1);
      case SendClosed =>
      case SendFailed(wanted) =>
        if count < retry && ssl && wanted {
          StepsReachTheEnd(sends, ssl, k + 1, total, nrbytes, count + 1, retry, steps - 1);
        }
    }
  }

  /** A negative retry count is never reached: a TLS connection that always wants a retry keeps the
      thread in the loop for ever. */
  lemma {:induction false} NegativeRetryNeverEnds(k: nat, total: nat, nrbytes: nat, count: nat, retry: int, steps: nat)
    requires retry < 0 && total < nrbytes
    ensures SendingSteps(_ => SendFailed(true), true, k, total, nrbytes, count, retry, steps) == Running
    decreases steps
  {
    if steps > 0 {
      NegativeRetryNeverEnds(k + 1, total, nrbytes, count + 1, retry, steps - 1);
    }
  }
}
