/** Sending a reply: one line is put into the write buffer and written in as many pieces as the socket takes. */
module Reply {
  import opened Layout
  import opened Bytes

  const WRITEBUF_LEN: nat := 2048

  /** "SERVER_ERROR output line too long" */
  const TOO_LONG: seq<byte> := [
    83, 69, 82, 86, 69, 82, 95, 69, 82, 82, 79, 82, 32, 111, 117, 116, 112, 117, 116, 32, 108, 105, 110, 101, 32,
    116, 111, 111, 32, 108, 111, 110, 103]
  const CRLF: seq<byte> := [13, 10]

  /** What one call of write can answer: some bytes taken, none, EAGAIN, or another error. */
  datatype Answer = Took(n: nat) | TookNone | Again | Failed

  /** The kernel takes at least one byte and no more than it is offered. */
  function Given(a: Answer, avail: nat): Answer
    requires avail > 0
  {
    if a.Took? then Took(if a.n == 0 then 1 else if a.n > avail then avail else a.n) else a
  }

  /**
   * Overrun: more bytes are counted as written than the reply has, and write is offered a negative length. What the
   * socket takes then is not part of this model.
   */
  datatype Progress = WriteDataAll | WriteDataPart | WriteError | Overrun

  datatype Mode = Reading | Writing | Other

  lemma PiecesJoin(s: seq<byte>, k: nat, n: nat)
    requires k <= |s| && n <= |s[k..]|
    ensures s[..k] + s[k..][..n] == s[..k + n] && s[k..][n..] == s[k + n..] && |s[k..]| == |s| - k
  {
  }

  class Conn {
    const wbuf: array<byte>
    var wbufLen: nat          // length of the reply, or of the buffer while there is none
    var wbufNow: nat          // wbuf_now, as an offset into wbuf
    var wbufWlen: nat         // bytes of the reply written so far
    var mode: Mode
    var noreply: bool
    ghost var wire: seq<byte>     // all bytes the socket has taken

    ghost predicate Valid()
      reads this
    {
      wbuf.Length >= WRITEBUF_LEN && wbufLen <= wbuf.Length && wbufNow <= wbufWlen
    }

    constructor ()
      ensures Valid() && wire == [] && wbufNow == wbufWlen == 0 && wbufLen == WRITEBUF_LEN && fresh(wbuf)
    {
      wbuf := new byte[WRITEBUF_LEN];
      wbufLen, wbufNow, wbufWlen := WRITEBUF_LEN, 0, 0;
      mode, noreply := Reading, false;
      wire := [];
    }

    /** A second, shorter line has replaced the reply that was being written. */
    ghost predicate Over()
      reads this
    {
      wbufWlen > wbufLen
    }

    /** What will still be offered to the socket: as many bytes as are not counted as written, from wbuf_now on. */
    ghost function Rest(): (r: seq<byte>)
      requires Valid()
      reads this, wbuf
      ensures |r| == if Over() then 0 else wbufLen - wbufWlen
    {
      if Over() then [] else wbuf[wbufNow..wbufNow + (wbufLen - wbufWlen)]
    }

    /**
     * out_string: the line, or the complaint that it is too long, is put into the buffer. The count of bytes written is
     * left as it is, so the whole line goes out exactly when no reply was in flight; else its end is cut off. `noreply`
     * changes nothing: the state is set to reading and then to writing again.
     */
    method OutString(line: seq<byte>)
      requires Valid()
      modifies this, wbuf
      ensures Valid() && wire == old(wire) && mode == Writing && !noreply && wbufWlen == old(wbufWlen) && wbufNow == 0
      ensures var reply := (if |line| + 2 < old(wbufLen) then line else TOO_LONG) + CRLF;
              && wbufLen == |reply|
              && (wbufWlen <= |reply| ==> Rest() == reply[..|reply| - wbufWlen])
              && (wbufWlen <= |reply| ==> (Rest() == reply <==> old(wbufWlen) == 0))
    {
      if noreply {
        noreply := false;
        mode := Reading;
      }
      var text := line;
      if |line| + 2 >= wbufLen {
        text := TOO_LONG;
      }
      Memcpy(wbuf, 0, text);
      Memcpy(wbuf, |text|, CRLF);
      wbufLen := |text| + 2;
      wbufNow := 0;
      mode := Writing;
      assert wbuf[..][..|text| + 2] == text + CRLF;
    }

    /** The reply is out: the buffer is cleared and the offsets go back. */
    method StartOver()
      requires wbuf.Length >= WRITEBUF_LEN
      modifies this, wbuf
      ensures Valid() && wire == old(wire) && mode == old(mode)
      ensures wbufLen == WRITEBUF_LEN && wbufNow == wbufWlen == 0
    {
      wbufLen := WRITEBUF_LEN;
      Clear(wbuf, wbufLen);
      wbufWlen := 0;
      wbufNow := 0;
    }

    /** The socket has taken n bytes. */
    method Advance(n: nat)
      requires Valid() && wbufWlen + n <= wbufLen
      modifies this
      ensures Valid() && wbufLen == old(wbufLen) && wbufWlen == old(wbufWlen) + n && wbufNow == old(wbufNow) + n
      ensures mode == old(mode)
      ensures wire == old(wire) + old(Rest())[..n] && Rest() == old(Rest())[n..]
    {
      wire := wire + wbuf[wbufNow..wbufNow + n];
      wbufWlen := wbufWlen + n;
      wbufNow := wbufNow + n;
    }

    /**
     * write_activate_read: write until the reply is out, the socket is full or an error occurs. Whatever the pattern of
     * short writes, the socket takes the next bytes of the reply, in order and without a gap; when the last one is out
     * the offsets are back at zero for the next reply. With more bytes counted than the reply has, nothing is in order.
     */
    method WriteActivateRead(kernel: nat -> Answer) returns (state: Progress, ghost sent: nat)
      requires Valid()
      modifies this, wbuf
      ensures Valid() && Over() == old(Over()) && (state == Overrun <==> old(Over()))
      ensures sent <= |old(Rest())| && wire == old(wire) + old(Rest())[..sent]
      ensures state == WriteDataAll <==> !old(Over()) && sent == |old(Rest())|
      ensures state == WriteDataAll && old(Rest()) != [] ==> wbufLen == WRITEBUF_LEN && wbufNow == wbufWlen == 0
      ensures state != WriteDataAll ==> Rest() == old(Rest())[sent..] && wbufLen == old(wbufLen)
      ensures mode == old(mode)
    {
      hide Conn.Rest;
      sent := 0;
      if wbufWlen > wbufLen { return Overrun, 0; }
      ghost var reply := Rest();
      var call := 0;
      while true
        invariant Valid() && wbufLen == old(wbufLen) && mode == old(mode) && wbufWlen <= wbufLen
        invariant sent <= |reply| && (sent > 0 ==> sent < |reply|)
        invariant wire == old(wire) + reply[..sent] && Rest() == reply[sent..]
        decreases wbufLen - wbufWlen
      {
        var avail := wbufLen - wbufWlen;
        if avail == 0 { return WriteDataAll, sent; }
        var ret := Given(kernel(call), avail);
        call := call + 1;
        match ret
        case Took(n) =>
          PiecesJoin(reply, sent, n);
          Advance(n);
          sent := sent + n;
          if n == avail {
            StartOver();
            return WriteDataAll, sent;
          }
        case TookNone =>
          return WriteError, sent;
        case Again =>
          break;
        case Failed =>
          return WriteError, sent;
      }
      state := WriteDataPart;
    }
  }

  /**
   * drive_machine in the writing state, over any number of write events: the socket takes a prefix of the reply, and
   * the connection goes on to the next request exactly when that prefix is the whole reply.
   */
  method DriveWrites(conn: Conn, events: nat, kernel: (nat, nat) -> Answer) returns (state: Progress, ghost sent: nat)
    requires conn.Valid()
    modifies conn, conn.wbuf
    ensures conn.Valid() && conn.Over() == old(conn.Over()) && (state == Overrun <==> old(conn.Over()) && events > 0)
    ensures sent <= |old(conn.Rest())| && conn.wire == old(conn.wire) + old(conn.Rest())[..sent]
    ensures state == WriteDataAll <==> !old(conn.Over()) && events > 0 && sent == |old(conn.Rest())|
    ensures state == WriteDataAll && old(conn.Rest()) != [] ==>
              conn.wbufLen == WRITEBUF_LEN && conn.wbufNow == conn.wbufWlen == 0
    ensures state != WriteDataAll ==> conn.Rest() == old(conn.Rest())[sent..]
  {
    hide Conn.Valid, Conn.Rest, Conn.Over;
    state, sent := WriteDataPart, 0;
    ghost var reply := conn.Rest();
    var event: nat := 0;
    while event < events && state == WriteDataPart
      invariant conn.Valid() && conn.Over() == old(conn.Over()) && sent <= |reply|
      invariant event <= events && (event == 0 ==> sent == 0 && state == WriteDataPart)
      invariant state == Overrun <==> old(conn.Over()) && event > 0
      invariant conn.wire == old(conn.wire) + reply[..sent]
      invariant state == WriteDataAll <==> !old(conn.Over()) && event > 0 && sent == |reply|
      invariant state == WriteDataAll && reply != [] ==>
                conn.wbufLen == WRITEBUF_LEN && conn.wbufNow == conn.wbufWlen == 0
      invariant state != WriteDataAll ==> conn.Rest() == reply[sent..]
    {
      var e: nat := event;
      ghost var more: nat;
      state, more := conn.WriteActivateRead((call: nat) => kernel(e, call));
      PiecesJoin(reply, sent, more);
      sent := sent + more;
      event := event + 1;
    }
  }
}
