/**
 * splitCoalescedMessages of conn/bind_std.go: large messages at the end of an array are cut
 * into the slots from the front, over messages that have been read already.
 */
module UdpSplit {
  import opened Bytes
  import opened Options
  import opened Segments
  import opened Sequences
  import opened UdpBatch

  /** `n` bytes of the buffer are the datagram; `control` is the segment size, if it could be read. */
  datatype Message = Message(buf: seq<Byte>, n: nat, addr: nat, control: Option<nat>)

  /** Panic: the slice expression reaches beyond the buffer. */
  datatype SplitError = Fine | BadControl | Overflow | Panic

  /** What splitting makes of one message. With a segment size beyond `n` it takes that many bytes all the same. */
  function Pieces(m: Message): (r: seq<seq<Byte>>)
    requires 0 < m.n <= |m.buf| && m.control.Some? && m.control.value <= |m.buf|
    ensures |r| >= 1
  {
    var g := m.control.value;
    if g == 0 then [m.buf[..m.n]] else if g > m.n then [m.buf[..g]] else Chop(m.buf[..m.n], g)
  }

  lemma {:induction false} ChopJoins(data: seq<Byte>, g: nat)
    requires g > 0
    ensures Payloads(Chop(data, g), 0) == data
    decreases |data|
  {
    if |data| <= g {
      PayloadsAppend([], 0, data);
      assert [] + [data] == [data] && data[0..] == data;
    } else {
      ChopJoins(data[g..], g);
      PayloadsPrepend(data[..g], Chop(data[g..], g), 0);
      assert data[..g][0..] == data[..g] && data == data[..g] + data[g..];
    }
  }

  /** The pieces are the datagram exactly when the segment size is at most its length. */
  lemma PiecesAreDatagram(m: Message)
    requires 0 < m.n <= |m.buf| && m.control.Some? && m.control.value <= |m.buf|
    ensures Payloads(Pieces(m), 0) == m.buf[..m.n] <==> m.control.value <= m.n
  {
    var g := m.control.value;
    if g > 0 && g <= m.n {
      ChopJoins(m.buf[..m.n], g);
    } else {
      var one := if g == 0 then m.buf[..m.n] else m.buf[..g];
      PayloadsAppend([], 0, one);
      assert [] + [one] == [one] && one[0..] == one;
    }
  }

  /** Messages with one size of buffer. */
  predicate Sized(ms: seq<Message>, size: nat) {
    forall i :: 0 <= i < |ms| ==> SizedOne(ms[i], size)
  }

  predicate SizedOne(m: Message, size: nat) {
    |m.buf| == size && m.n <= size
  }

  predicate Readable(m: Message) {
    0 < m.n <= |m.buf| && m.control.Some? && m.control.value <= |m.buf|
  }

  /** The pieces of the messages from `i` to the first empty or unreadable one, with their sender. */
  function Expected(ms: seq<Message>, i: nat): seq<(seq<Byte>, nat)>
    decreases |ms| - i
  {
    if i >= |ms| || !Readable(ms[i]) then [] else Tagged(Pieces(ms[i]), ms[i].addr) + Expected(ms, i + 1)
  }

  function Tagged(ps: seq<seq<Byte>>, addr: nat): (r: seq<(seq<Byte>, nat)>)
    ensures |r| == |ps| && forall k :: 0 <= k < |ps| ==> r[k] == (ps[k], addr)
  {
    seq(|ps|, k requires 0 <= k < |ps| => (ps[k], addr))
  }

  /** Message by message the pieces end at or before the message they come from. */
  predicate Room(ms: seq<Message>, i: nat, n: nat)
    decreases |ms| - i
  {
    i >= |ms| || !Readable(ms[i]) || (n + |Pieces(ms[i])| <= i + 1 && Room(ms, i + 1, n + |Pieces(ms[i])|))
  }

  /** Two read slots of 128 and at most 64 pieces each: there is always room. */
  lemma ReservedSlotsSuffice(ms: seq<Message>)
    requires |ms| == 128
    requires forall i :: 126 <= i < 128 && Readable(ms[i]) ==> |Pieces(ms[i])| <= MAX_DATAGRAMS
    ensures Room(ms, 126, 0)
  {
    if Readable(ms[126]) {
      assert Room(ms, 127, |Pieces(ms[126])|) by { assert Room(ms, 128, |Pieces(ms[126])| + if Readable(ms[127]) then
          |Pieces(ms[127])| else 0); }
    }
  }

  // ---------- nothing changes hands ----------

  /** All that came from `addr`, in order. */
  function From(out: seq<(seq<Byte>, nat)>, addr: nat): seq<Byte> {
    if out == [] then []
    else
      var last := out[|out| - 1];
      From(out[..|out| - 1], addr) + if last.1 == addr then last.0 else []
  }

  /** The datagrams from `i` on, up to the first empty or unreadable one. */
  function Datagrams(ms: seq<Message>, i: nat): seq<(seq<Byte>, nat)>
    decreases |ms| - i
  {
    if i >= |ms| || !Readable(ms[i]) then [] else [(ms[i].buf[..ms[i].n], ms[i].addr)] + Datagrams(ms, i + 1)
  }

  lemma {:induction false} FromJoins(x: seq<(seq<Byte>, nat)>, y: seq<(seq<Byte>, nat)>, addr: nat)
    ensures From(x + y, addr) == From(x, addr) + From(y, addr)
  {
    if y == [] {
      assert x + [] == x;
    } else {
      var front, last := y[..|y| - 1], y[|y| - 1];
      FromJoins(x, front, addr);
      assert (x + y)[..|x + y| - 1] == x + front;
      Regroup(From(x, addr), From(front, addr), if last.1 == addr then last.0 else []);
    }
  }

  lemma {:induction false} FromTagged(ps: seq<seq<Byte>>, from: nat, addr: nat)
    ensures From(Tagged(ps, from), addr) == if from == addr then Payloads(ps, 0) else []
  {
    if ps != [] {
      var front := ps[..|ps| - 1];
      FromTagged(front, from, addr);
      assert Tagged(ps, from)[..|ps| - 1] == Tagged(front, from);
      assert ps[|ps| - 1][0..] == ps[|ps| - 1];
    }
  }

  /** The segment sizes are within their datagrams. */
  predicate Sound(ms: seq<Message>, i: nat)
    decreases |ms| - i
  {
    i >= |ms| || !Readable(ms[i]) || (ms[i].control.value <= ms[i].n && Sound(ms, i + 1))
  }

  lemma OneKeeps(m: Message, addr: nat)
    requires Readable(m) && m.control.value <= m.n
    ensures From(Tagged(Pieces(m), m.addr), addr) == From([(m.buf[..m.n], m.addr)], addr)
  {
    PiecesAreDatagram(m);
    FromTagged(Pieces(m), m.addr, addr);
    var one := [(m.buf[..m.n], m.addr)];
    assert one[..0] == [] && From(one, addr) == [] + if m.addr == addr then m.buf[..m.n] else [];
  }

  /** From each sender the pieces are, one after the other, what it sent. */
  lemma {:induction false} SendersKeepTheirData(ms: seq<Message>, i: nat, addr: nat)
    requires Sound(ms, i)
    ensures From(Expected(ms, i), addr) == From(Datagrams(ms, i), addr)
    decreases |ms| - i
  {
    if i < |ms| && Readable(ms[i]) {
      SendersKeepTheirData(ms, i + 1, addr);
      OneKeeps(ms[i], addr);
      FromJoins(Tagged(Pieces(ms[i]), ms[i].addr), Expected(ms, i + 1), addr);
      FromJoins([(ms[i].buf[..ms[i].n], ms[i].addr)], Datagrams(ms, i + 1), addr);
    }
  }

  // ---------- the method ----------

  predicate Emitted(m: Message, piece: (seq<Byte>, nat)) {
    m.n == |piece.0| <= |m.buf| && m.buf[..m.n] == piece.0 && m.addr == piece.1
  }

  /** The slots below |out| hold what has been put out. */
  predicate AllEmitted(ms: seq<Message>, out: seq<(seq<Byte>, nat)>) {
    |out| <= |ms| && forall k :: 0 <= k < |out| ==> Emitted(ms[k], out[k])
  }

  /** `copy(msgs[n].Buffers[0], piece)`, with its length and sender. */
  function Put(m: Message, piece: seq<Byte>, addr: nat): (r: Message)
    requires |piece| <= |m.buf|
    ensures Emitted(r, (piece, addr)) && |r.buf| == |m.buf| && r.control == m.control
  {
    m.(buf := piece + m.buf[|piece|..], n := |piece|, addr := addr)
  }

  /** Where piece j of a message starts and ends. */
  predicate At(m: Message, j: nat, start: nat, end: nat) {
    && Readable(m) && start <= end <= |m.buf|
    && (j < |Pieces(m)| ==> Pieces(m)[j] == m.buf[start..end])
    && (0 < m.control.value <= m.n ==> start == Times(j, m.control.value)
                                       && end == if start + m.control.value < m.n then start + m.control.value else m.n)
  }

  lemma FirstPiece(m: Message, end: nat)
    requires Readable(m) && end == if m.control.value > 0 then m.control.value else m.n
    ensures At(m, 0, 0, end)
  {
    var g := m.control.value;
    TimesNext(0, g);
    if 0 < g <= m.n {
      ChopAt(m.buf[..m.n], g, 0);
      assert m.buf[..m.n][0..g] == m.buf[0..g];
    }
  }

  lemma NextPiece(m: Message, j: nat, start: nat, end: nat)
    requires At(m, j, start, end) && j + 1 < |Pieces(m)|
    ensures At(m, j + 1, end, if end + m.control.value > m.n then m.n else end + m.control.value)
  {
    var g := m.control.value;
    var data := m.buf[..m.n];
    TimesNext(j, g);
    ChopAt(data, g, j + 1);
    var next := if end + g > m.n then m.n else end + g;
    assert data[end..next] == m.buf[end..next];
  }

  lemma NumToSplit(m: Message)
    requires Readable(m)
    ensures |Pieces(m)| == if m.control.value > 0 then (m.n + m.control.value - 1) / m.control.value else 1
  {
    var g := m.control.value;
    if 0 < g <= m.n {
      CountIsQuotient(m.buf[..m.n], g);
    } else if g > 0 {
      assert Times(1, g) == g;
      Quotient(m.n + g - 1, g, 1, m.n - 1);
    }
  }

  /** Message `i`'s bytes `start` to `end`, which are piece j of `all`, go to slot `n`. */
  method EmitNext(msgs: array<Message>, n: nat, i: nat, start: nat, end: nat, size: nat, ghost j: nat,
        ghost out: seq<(seq<Byte>, nat)>, ghost all: seq<(seq<Byte>, nat)>)
    requires n <= i < msgs.Length && start <= end <= |msgs[i].buf| && Sized(msgs[..], size)
    requires j < |all| && all[j] == (msgs[i].buf[start..end], msgs[i].addr) && |out| + j == n
        && AllEmitted(msgs[..], out + all[..j])
    modifies msgs
    ensures Sized(msgs[..], size) && AllEmitted(msgs[..], out + all[..j + 1])
    ensures forall k :: n + 1 <= k < msgs.Length ==> msgs[k] == old(msgs[k])
  {
    assert SizedOne(msgs[..][n], size) && SizedOne(msgs[..][i], size);
    msgs[n] := Put(msgs[n], msgs[i].buf[start..end], msgs[i].addr);
    assert out + all[..j + 1] == (out + all[..j]) + [all[j]];
  }

  /** The pieces of message `i` go to the slots from `n0` on, unless they would pass it. */
  method SplitOne(msgs: array<Message>, i: nat, n0: nat, size: nat, ghost out: seq<(seq<Byte>, nat)>)
    returns (n: nat, ok: bool)
    requires n0 <= i < msgs.Length && Sized(msgs[..], size) && Readable(msgs[i]) && |out| == n0
        && AllEmitted(msgs[..], out)
    modifies msgs
    ensures Sized(msgs[..], size) && n <= i + 1
    ensures var m := old(msgs[i]);
            && ok == (n0 + |Pieces(m)| <= i + 1)
            && (ok ==> n == n0 + |Pieces(m)| && AllEmitted(msgs[..], out + Tagged(Pieces(m), m.addr)))
    ensures forall k :: n <= k < msgs.Length ==> msgs[k] == old(msgs[k])
  {
    ghost var m := msgs[i];
    ghost var all := Tagged(Pieces(m), m.addr);
    var gsoSize := msgs[i].control.value;
    var start: nat, end: nat, numToSplit: nat := 0, msgs[i].n, 1;
    if gsoSize > 0 {
      numToSplit := (msgs[i].n + gsoSize - 1) / gsoSize;
      end := gsoSize;
    }
    NumToSplit(m);
    FirstPiece(m, end);
    n := n0;
    assert out + all[..0] == out;
    for j := 0 to numToSplit
      invariant n == n0 + j <= i + 1 && Sized(msgs[..], size) && AllEmitted(msgs[..], out + all[..j])
      invariant n <= i && j < numToSplit ==> At(m, j, start, end)
      invariant forall k :: n <= k < msgs.Length ==> msgs[k] == old(msgs[k])
    {
      if n > i {
        return n, false;
      }
      EmitNext(msgs, n, i, start, end, size, j, out, all);
      if n < i && j + 1 < numToSplit { NextPiece(m, j, start, end); }
      start := end;
      end := end + gsoSize;
      if end > msgs[i].n {
        end := msgs[i].n;
      }
      n := n + 1;
    }
    assert all[..numToSplit] == all;
    return n, true;
  }

  /** What will be out in the end, and whether there is room for it, given what is out before message `i`. */
  function Outlook(ms: seq<Message>, i: nat, n: nat, out: seq<(seq<Byte>, nat)>): (seq<(seq<Byte>, nat)>, bool) {
    (out + Expected(ms, i), Room(ms, i, n))
  }

  lemma OutlookStops(ms: seq<Message>, i: nat, n: nat, out: seq<(seq<Byte>, nat)>)
    requires i >= |ms| || !Readable(ms[i])
    ensures Outlook(ms, i, n, out) == (out, true)
  {
    assert out + [] == out;
  }

  lemma OutlookStays(ms: seq<Message>, i: nat, n: nat, out: seq<(seq<Byte>, nat)>, n': nat, out': seq<(seq<Byte>, nat)>)
    requires i < |ms| && Readable(ms[i])
    requires out' == out + Tagged(Pieces(ms[i]), ms[i].addr) && n' == n + |Pieces(ms[i])| <= i + 1
    ensures Outlook(ms, i + 1, n', out') == Outlook(ms, i, n, out)
  {
    var all, rest := Tagged(Pieces(ms[i]), ms[i].addr), Expected(ms, i + 1);
    assert Expected(ms, i) == all + rest && Room(ms, i, n) == Room(ms, i + 1, n');
    Regroup(out, all, rest);
    assert Outlook(ms, i + 1, n', out') == ((out + all) + rest, Room(ms, i + 1, n'));
  }

  lemma OutlookFails(ms: seq<Message>, i: nat, n: nat, out: seq<(seq<Byte>, nat)>)
    requires i < |ms| && Readable(ms[i]) && n + |Pieces(ms[i])| > i + 1
    ensures !Outlook(ms, i, n, out).1
  {
  }

  lemma OutlookStarts(ms: seq<Message>, from: nat)
    ensures Outlook(ms, from, 0, []) == (Expected(ms, from), Room(ms, from, 0))
  {
    assert [] + Expected(ms, from) == Expected(ms, from);
  }

  /** Split messages that hold no output any more are empty. */
  predicate Spent(ms: seq<Message>, from: nat, to: nat, n: nat) {
    forall k :: from <= k < to && n <= k < |ms| ==> ms[k].n == 0
  }

  /** The source message is emptied, unless its slot took the last piece. */
  method ZeroUnless(msgs: array<Message>, i: nat, n: nat, size: nat, ghost from: nat, ghost out: seq<(seq<Byte>, nat)>)
    requires i < msgs.Length && n <= i + 1 && |out| == n && Sized(msgs[..], size) && AllEmitted(msgs[..], out)
        && Spent(msgs[..], from, i, n)
    modifies msgs
    ensures Sized(msgs[..], size) && AllEmitted(msgs[..], out) && Spent(msgs[..], from, i + 1, n)
    ensures forall k :: 0 <= k < msgs.Length && k != i ==> msgs[k] == old(msgs[k])
  {
    if i != n - 1 {
      msgs[i] := msgs[i].(n := 0);
    }
  }

  /** From message `i` on, all is as at first. */
  predicate Unread(now: seq<Message>, ms: seq<Message>, i: nat) {
    |now| == |ms| && forall k :: i <= k < |ms| ==> now[k] == ms[k]
  }

  /** Before message `i`: `out` is out, the messages split since `from` are empty, the others as in `ms`. */
  predicate Midway(now: seq<Message>, ms: seq<Message>, from: nat, i: nat, n: nat, out: seq<(seq<Byte>, nat)>,
        size: nat) {
    && from <= i <= |ms| && |out| == n <= i && Sized(now, size) && AllEmitted(now, out)
    && Spent(now, from, i, n) && Unread(now, ms, i)
  }

  /** Split message `i` and empty it. */
  method TakeOne(msgs: array<Message>, i: nat, n0: nat, size: nat, ghost ms: seq<Message>, ghost from: nat,
        ghost out: seq<(seq<Byte>, nat)>)
    returns (n: nat, ok: bool, ghost out': seq<(seq<Byte>, nat)>)
    requires Midway(msgs[..], ms, from, i, n0, out, size) && i < |ms| && Readable(ms[i])
    modifies msgs
    ensures ok == (n0 + |Pieces(ms[i])| <= i + 1)
    ensures ok ==> out' == out + Tagged(Pieces(ms[i]), ms[i].addr) && n == n0 + |Pieces(ms[i])|
                   && Midway(msgs[..], ms, from, i + 1, n, out', size)
  {
    assert msgs[..][i] == ms[i];
    out' := out + Tagged(Pieces(ms[i]), ms[i].addr);
    n, ok := SplitOne(msgs, i, n0, size, out);
    if ok {
      ZeroUnless(msgs, i, n, size, from, out');
    }
  }

  /** Why splitting ends at message `last`: none is left, it is empty, or its control data are bad or too large. */
  predicate Ends(ms: seq<Message>, last: nat, err: SplitError) {
    if last >= |ms| || ms[last].n == 0 then err == Fine
    else if ms[last].control.None? then err == BadControl
    else err == Panic && ms[last].control.value > |ms[last].buf|
  }

  /** One turn of the loop: `done` if splitting ends at message `i`. */
  method TakeNext(msgs: array<Message>, i: nat, n0: nat, size: nat, ghost ms: seq<Message>, ghost from: nat,
        ghost out: seq<(seq<Byte>, nat)>)
    returns (n: nat, done: bool, err: SplitError, ghost out': seq<(seq<Byte>, nat)>)
    requires Midway(msgs[..], ms, from, i, n0, out, size) && i < |ms|
    modifies msgs
    ensures !done ==> Midway(msgs[..], ms, from, i + 1, n, out', size)
                      && Outlook(ms, i + 1, n, out') == Outlook(ms, i, n0, out)
    ensures done && err == Overflow ==> !Outlook(ms, i, n0, out).1
    ensures done && err != Overflow ==> Outlook(ms, i, n0, out) == (out, true) && n == n0 && Ends(ms, i, err)
                                        && Midway(msgs[..], ms, from, i, n, out, size)
  {
    assert SizedOne(msgs[..][i], size) && msgs[..][i] == ms[i];
    out' := out;
    if msgs[i].n == 0 {
      OutlookStops(ms, i, n0, out);
      return n0, true, Fine, out;
    }
    if msgs[i].control.None? {
      OutlookStops(ms, i, n0, out);
      return n0, true, BadControl, out;
    }
    if msgs[i].control.value > |msgs[i].buf| {
      OutlookStops(ms, i, n0, out);
      return n0, true, Panic, out;
    }
    var ok;
    n, ok, out' := TakeOne(msgs, i, n0, size, ms, from, out);
    if ok {
      OutlookStays(ms, i, n0, out, n, out');
    } else {
      OutlookFails(ms, i, n0, out);
    }
    done, err := !ok, if ok then Fine else Overflow;
  }

  /** The loop over the messages, `ms` at first. */
  method SplitFrom(msgs: array<Message>, from: nat, size: nat, ghost ms: seq<Message>)
    returns (n: nat, err: SplitError, ghost last: nat, ghost out: seq<(seq<Byte>, nat)>)
    requires from <= msgs.Length && Sized(msgs[..], size) && msgs[..] == ms
    modifies msgs
    ensures err == Overflow ==> !Outlook(ms, from, 0, []).1
    ensures err != Overflow ==> Outlook(ms, from, 0, []) == (out, true) && Ends(ms, last, err)
                                && Midway(msgs[..], ms, from, last, n, out, size)
  {
    out := [];
    n := 0;
    var i := from;
    while i < msgs.Length
      invariant i <= msgs.Length && Midway(msgs[..], ms, from, i, n, out, size)
      invariant Outlook(ms, i, n, out) == Outlook(ms, from, 0, [])
    {
      last := i;
      var n', done;
      ghost var out';
      n', done, err, out' := TakeNext(msgs, i, n, size, ms, from, out);
      if done {
        return n', err, last, out;
      }
      n, out, i := n', out', i + 1;
    }
    last := i;
    OutlookStops(ms, i, n, out);
    return n, Fine, last, out;
  }

  /**
   * From `firstMsgAt` on, to the first message that is empty or cannot be cut: exactly the pieces
   * come out, in order, unless they would overwrite a message not read yet.
   */
  method SplitCoalescedMessages(msgs: array<Message>, firstMsgAt: nat, size: nat)
    returns (n: nat, err: SplitError, ghost last: nat)
    requires firstMsgAt <= msgs.Length && Sized(msgs[..], size)
    modifies msgs
    ensures err == Overflow <==> !Room(old(msgs[..]), firstMsgAt, 0)
    ensures err != Overflow ==> n == |Expected(old(msgs[..]), firstMsgAt)|
                                && AllEmitted(msgs[..], Expected(old(msgs[..]), firstMsgAt))
    ensures err != Overflow ==> Spent(msgs[..], firstMsgAt, last, n) && Ends(old(msgs[..]), last, err)
  {
    OutlookStarts(msgs[..], firstMsgAt);
    ghost var out;
    n, err, last, out := SplitFrom(msgs, firstMsgAt, size, msgs[..]);
  }
}
