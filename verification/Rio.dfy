/** Robust I/O: buffered reading and complete writing over a descriptor whose calls may
    move fewer bytes than asked for, be interrupted, or fail. */
module Rio {

  /** What the next read or write call does: move up to `count` bytes (at least one), be
      interrupted by a signal, or fail. */
  datatype Outcome = Moves(count: nat) | Interrupted | Failed

  predicate Reliable(plan: seq<Outcome>) { forall i :: 0 <= i < |plan| ==> !plan[i].Failed? }

  /** A socket. `incoming` is everything its peer will ever have sent and nobody has read;
      `plan` is what the next calls do, and once it is used up calls move all they can. */
  class Descriptor {
    var incoming: string
    var outgoing: string
    var plan: seq<Outcome>

    constructor (incoming: string, plan: seq<Outcome>)
      ensures this.incoming == incoming && this.plan == plan && outgoing == ""
    {
      this.incoming, this.outgoing, this.plan := incoming, "", plan;
    }

    method NextOutcome() returns (outcome: Outcome)
      modifies this`plan
      ensures old(Reliable(plan)) ==> Reliable(plan) && !outcome.Failed?
      ensures |plan| < |old(plan)| || outcome.Moves?
      ensures |plan| <= |old(plan)|
    {
      if plan == [] {
        return Moves(0x8000_0000);
      }
      outcome, plan := plan[0], plan[1..];
    }

    /** read(2): -1 with EINTR, -1 with another error, 0 at the end, else a first part. */
    method Read(buf: array<char>, size: nat) returns (n: int, interrupted: bool)
      requires 0 < size <= buf.Length
      modifies this`incoming, this`plan, buf
      ensures -1 <= n <= size && n <= |old(incoming)| && incoming == old(incoming)[if n < 0 then 0 else n..]
      ensures n == 0 ==> old(incoming) == ""
      ensures n > 0 ==> buf[..n] == old(incoming)[..n]
      ensures interrupted ==> n == -1 && |plan| < |old(plan)|
      ensures |plan| <= |old(plan)|
      ensures old(Reliable(plan)) ==> Reliable(plan) && (n == -1 ==> interrupted)
    {
      var outcome := NextOutcome();
      if !outcome.Moves? {
        return -1, outcome.Interrupted?;
      }
      n, interrupted := if |incoming| < size then |incoming| else size, false;
      if 0 < outcome.count < n {
        n := outcome.count;
      }
      for i := 0 to n
        invariant incoming == old(incoming) && (old(Reliable(plan)) ==> Reliable(plan)) && |plan| <= |old(plan)|
        invariant forall k :: 0 <= k < i ==> buf[k] == incoming[k]
      {
        buf[i] := incoming[i];
      }
      incoming := incoming[n..];
    }

    /** write(2): -1 with EINTR, -1 with another error, else a non-empty first part. */
    method Write(bytes: string) returns (n: int, interrupted: bool)
      requires bytes != ""
      modifies this`outgoing, this`plan
      ensures (n == -1 || 0 < n <= |bytes|) && outgoing == old(outgoing) + bytes[..if n < 0 then 0 else n]
      ensures interrupted ==> n == -1 && |plan| < |old(plan)|
      ensures |plan| <= |old(plan)|
      ensures old(Reliable(plan)) ==> Reliable(plan) && (n == -1 ==> interrupted)
    {
      var outcome := NextOutcome();
      if !outcome.Moves? {
        return -1, outcome.Interrupted?;
      }
      n, interrupted := if 0 < outcome.count < |bytes| then outcome.count else |bytes|, false;
      outgoing := outgoing + bytes[..n];
    }
  }

  /** Was a proper part of `bytes` appended, from its beginning? */
  ghost predicate WrotePart(before: string, after: string, bytes: string) {
    exists n :: 0 <= n < |bytes| && after == before + bytes[..n]
  }

  /** rio_writen: all of the bytes, or an error after some of them. */
  method WriteN(fd: Descriptor, bytes: string) returns (rc: int)
    modifies fd`outgoing, fd`plan
    ensures rc == |bytes| || rc == -1
    ensures rc == |bytes| ==> fd.outgoing == old(fd.outgoing) + bytes
    ensures rc == -1 ==> WrotePart(old(fd.outgoing), fd.outgoing, bytes)
    ensures old(Reliable(fd.plan)) ==> Reliable(fd.plan) && rc == |bytes|
  {
    var at := 0;
    while at < |bytes|
      invariant at <= |bytes| && fd.outgoing == old(fd.outgoing) + bytes[..at]
      invariant old(Reliable(fd.plan)) ==> Reliable(fd.plan)
      decreases |bytes| - at, |fd.plan|
    {
      var n, interrupted := fd.Write(bytes[at..]);
      if n <= 0 {
        if interrupted {
          n := 0;
        } else {
          assert bytes[..at] + bytes[at..][..0] == bytes[..at];
          return -1;
        }
      }
      assert bytes[..at] + bytes[at..][..n] == bytes[..at + n];
      at := at + n;
    }
    assert bytes[..at] == bytes;
    return |bytes|;
  }

  const BUFFER_SIZE: nat := 8192

  /** The first place of `c` in `s` from `from` on, or the length of `s`. */
  function First(s: string, c: char, from: nat): (i: nat)
    requires from <= |s|
    ensures from <= i <= |s| && (i < |s| ==> s[i] == c)
    decreases |s| - from
  {
    if from == |s| || s[from] == c then from else First(s, c, from + 1)
  }

  /** How much of `s` is its first line: up to and with the first newline, at most `max`. */
  function LineLength(s: string, max: nat): (n: nat)
    ensures n <= |s| && n <= max
  {
    var newline := First(s, '\n', 0);
    var whole := if newline < |s| then newline + 1 else newline;
    if whole < max then whole else max
  }

  lemma {:induction false} FirstSkips(s: string, c: char, from: nat, i: nat)
    requires from <= |s| && from <= i < First(s, c, from)
    ensures s[i] != c
    decreases i - from
  {
    if from < i {
      FirstSkips(s, c, from + 1, i);
    }
  }

  /** No newline among the first `at` characters. */
  predicate LineOpen(s: string, at: nat) { at <= First(s, '\n', 0) }

  lemma LineGoesOn(s: string, at: nat)
    requires LineOpen(s, at) && at < |s|
    ensures if s[at] == '\n' then First(s, '\n', 0) == at else LineOpen(s, at + 1)
  {
    if at < First(s, '\n', 0) {
      FirstSkips(s, '\n', 0, at);
    }
  }

  /** The first line: it ends with its only newline, at the limit, or where everything ends. */
  lemma LineLengthIs(s: string, max: nat, n: nat)
    ensures n == LineLength(s, max) <==>
            && n <= max && n <= |s|
            && (forall k :: 0 <= k < n - 1 ==> s[k] != '\n')
            && (n == max || n == |s| || (n > 0 && s[n - 1] == '\n'))
  {
    var newline := First(s, '\n', 0);
    forall k | 0 <= k < newline ensures s[k] != '\n' {
      FirstSkips(s, '\n', 0, k);
    }
  }

  /** Reading stops at the newline, at the limit, or at the end. */
  lemma LineStops(s: string, at: nat, max: nat)
    requires LineOpen(s, at) && at <= max
    ensures at == max || at == |s| ==> LineLength(s, max) == at
    ensures at < max && First(s, '\n', 0) == at < |s| ==> LineLength(s, max) == at + 1
  {
  }

  /** `rest` is what is left of `whole` once a first part is gone. */
  predicate EndOf(rest: string, whole: string) {
    |rest| <= |whole| && rest == whole[|whole| - |rest|..]
  }

  /** rio_t: the unread bytes are buf[next .. next + cnt], then what is still to come. */
  class Buffered {
    const fd: Descriptor
    const buf: array<char>
    var cnt: int
    var next: nat

    ghost predicate Valid()
      reads this
    {
      buf.Length == BUFFER_SIZE && (cnt > 0 ==> next + cnt <= BUFFER_SIZE)
    }

    /** The rest of the byte stream, as the reader will see it. */
    ghost function Rest(): string
      reads this, buf, fd
      requires Valid()
    {
      (if cnt > 0 then buf[next..next + cnt] else "") + fd.incoming
    }

    /** rio_readinitb */
    constructor (fd: Descriptor)
      ensures Valid() && this.fd == fd && fresh(buf) && Rest() == fd.incoming
    {
      this.fd, cnt, next := fd, 0, 0;
      buf := new char[BUFFER_SIZE];
    }

    /** The refill loop of rio_read: 1 once there are unread bytes, 0 at the end, or -1. */
    method Refill() returns (status: int)
      requires Valid()
      modifies this, buf, fd`incoming, fd`plan
      ensures Valid() && Rest() == old(Rest()) && -1 <= status <= 1
      ensures status == 1 ==> cnt > 0
      ensures status == 0 ==> Rest() == ""
      ensures old(Reliable(fd.plan)) ==> Reliable(fd.plan) && status >= 0
    {
      while cnt <= 0
        invariant Valid() && Rest() == old(Rest())
        invariant old(Reliable(fd.plan)) ==> Reliable(fd.plan)
        decreases |fd.plan|, cnt <= 0
      {
        var interrupted;
        cnt, interrupted := fd.Read(buf, BUFFER_SIZE);
        if cnt < 0 {
          if !interrupted {
            return -1;
          }
        } else if cnt == 0 {
          return 0;
        } else {
          next := 0;
        }
      }
      return 1;
    }

    /** rio_read: the next bytes, at least one unless none is asked for or none is left. */
    method ReadSome(usrbuf: array<char>, at: nat, n: nat) returns (rc: int)
      requires Valid() && usrbuf != buf && at + n <= usrbuf.Length
      modifies this, buf, fd`incoming, fd`plan, usrbuf
      ensures Valid() && -1 <= rc <= n && rc <= |old(Rest())|
      ensures Rest() == old(Rest())[if rc < 0 then 0 else rc..]
      ensures rc == 0 ==> n == 0 || old(Rest()) == ""
      ensures rc >= 0 ==> usrbuf[..at + rc] == old(usrbuf[..at]) + old(Rest())[..rc]
      ensures old(Reliable(fd.plan)) ==> Reliable(fd.plan) && rc >= 0
    {
      var status := Refill();
      if status <= 0 {
        return status;
      }
      rc := if cnt < n then cnt else n;
      CopyOut(usrbuf, at, rc);
      Advance(rc);
    }

    /** `rio_bufptr += n; rio_cnt -= n` */
    method Advance(n: nat)
      requires Valid() && 0 < cnt && n <= cnt
      modifies this`cnt, this`next
      ensures Valid() && n <= |old(Rest())| && Rest() == old(Rest())[n..]
    {
      ghost var unread := buf[next..next + cnt];
      next, cnt := next + n, cnt - n;
      assert (if cnt > 0 then buf[next..next + cnt] else "") == unread[n..];
      DropFirst(unread, fd.incoming, n);
    }

    /** The memcpy out of the buffer. */
    method CopyOut(usrbuf: array<char>, at: nat, n: nat)
      requires Valid() && usrbuf != buf && at + n <= usrbuf.Length && 0 < cnt && n <= cnt
      modifies usrbuf
      ensures usrbuf[..at + n] == old(usrbuf[..at]) + Rest()[..n]
    {
      for i := 0 to n
        invariant usrbuf[..at] == old(usrbuf[..at]) && usrbuf[at..at + i] == buf[next..next + cnt][..i]
      {
        usrbuf[at + i] := buf[next + i];
      }
      DropFirst(buf[next..next + cnt], fd.incoming, n);
      assert usrbuf[..at + n] == usrbuf[..at] + usrbuf[at..at + n];
    }

    /** rio_readnb: the next n bytes, or all that are left if they are fewer. */
    method ReadN(usrbuf: array<char>, n: nat) returns (rc: int)
      requires Valid() && usrbuf != buf && n <= usrbuf.Length
      modifies this, buf, fd`incoming, fd`plan, usrbuf
      ensures Valid() && (rc == -1 || rc == if n < |old(Rest())| then n else |old(Rest())|)
      ensures rc >= 0 ==> usrbuf[..rc] == old(Rest())[..rc] && Rest() == old(Rest())[rc..]
      ensures EndOf(Rest(), old(Rest()))
      ensures old(Reliable(fd.plan)) ==> Reliable(fd.plan) && rc >= 0
    {
      var at := 0;
      ghost var rest, seen, left := Rest(), "", Rest();
      while at < n
        invariant Valid() && at <= n && |seen| == at && rest == seen + left
        invariant usrbuf[..at] == seen && Rest() == left
        invariant old(Reliable(fd.plan)) ==> Reliable(fd.plan)
      {
        var got := ReadSome(usrbuf, at, n - at);
        if got < 0 {
          LeftIsEnd(seen, left);
          return -1;
        } else if got == 0 {
          break;
        }
        MoveOver(seen, left, got);
        seen, left := seen + left[..got], left[got..];
        at := at + got;
      }
      Parts(seen, left);
      LeftIsEnd(seen, left);
      return at;
    }

    /** `rio_read(rp, &c, 1)`, and `*bufp++ = c` if that reads a character. */
    method ReadChar(usrbuf: array<char>, at: nat) returns (rc: int, c: char)
      requires Valid() && usrbuf != buf && at < usrbuf.Length
      modifies this, buf, fd`incoming, fd`plan, usrbuf
      ensures Valid() && -1 <= rc <= 1
      ensures rc == 1 ==> old(Rest()) != "" && c == old(Rest())[0] && Rest() == old(Rest())[1..]
      ensures rc == 1 ==> usrbuf[..at + 1] == old(usrbuf[..at]) + [c]
      ensures rc == 0 ==> old(Rest()) == "" && Rest() == "" && usrbuf[..] == old(usrbuf[..])
      ensures rc < 0 ==> Rest() == old(Rest())
      ensures old(Reliable(fd.plan)) ==> Reliable(fd.plan) && rc >= 0
    {
      var one := new char[1];
      ghost var was := usrbuf[..];
      rc := ReadSome(one, 0, 1);
      c := one[0];
      assert rc == 1 ==> c == one[..1][0];
      assert usrbuf[..] == was;
      if rc == 1 {
        usrbuf[at] := c;
      }
    }

    /** `*bufp = 0` */
    method Terminate(usrbuf: array<char>, at: nat)
      requires Valid() && usrbuf != buf && at < usrbuf.Length
      modifies usrbuf
      ensures Valid() && Rest() == old(Rest()) && usrbuf[..at] == old(usrbuf[..at]) && usrbuf[at] == '\0'
    {
      usrbuf[at] := '\0';
    }

    /** rio_readlineb: the next line, cut after maxlen - 1 bytes, and a NUL behind it. Nothing
        at the end of the stream; an error loses the part of the line already read. */
    method ReadLine(usrbuf: array<char>, maxlen: nat) returns (rc: int)
      requires Valid() && usrbuf != buf && 1 <= maxlen <= usrbuf.Length
      modifies this, buf, fd`incoming, fd`plan, usrbuf
      ensures Valid() && (rc == -1 || rc == LineLength(old(Rest()), maxlen - 1))
      ensures EndOf(Rest(), old(Rest())) && (rc >= 0 ==> Rest() == old(Rest())[rc..])
      ensures rc > 0 ==> usrbuf[..rc] == old(Rest())[..rc] && usrbuf[rc] == '\0'
      ensures old(Reliable(fd.plan)) ==> Reliable(fd.plan) && rc >= 0
    {
      var n, at := 1, 0;
      ghost var rest, seen, left := Rest(), "", Rest();
      while n < maxlen
        invariant Valid() && n == at + 1 && at < maxlen && |seen| == at && rest == seen + left
        invariant usrbuf[..at] == seen && Rest() == left
        invariant LineOpen(rest, at)
        invariant old(Reliable(fd.plan)) ==> Reliable(fd.plan)
      {
        LineStops(rest, at, maxlen - 1);
        var got, c := ReadChar(usrbuf, at);
        if got == 1 {
          MoveOver(seen, left, 1);
          LineGoesOn(rest, at);
          seen, left := seen + [c], left[1..];
          at := at + 1;
          if c == '\n' {
            n := n + 1;
            break;
          }
        } else if got == 0 {
          if n == 1 {
            assert rest == left && rest[0..] == left;
            return 0;
          }
          break;
        } else {
          LeftIsEnd(seen, left);
          return -1;
        }
        n := n + 1;
        LineStops(rest, at, maxlen - 1);
      }
      assert at == LineLength(rest, maxlen - 1);
      Terminate(usrbuf, at);
      assert rest[at..] == left && rest[..at] == seen by { Parts(seen, left); }
      assert EndOf(left, rest) by { LeftIsEnd(seen, left); }
      return n - 1;
    }
  }

  lemma DropFirst(unread: string, incoming: string, n: nat)
    requires n <= |unread|
    ensures (unread + incoming)[..n] == unread[..n] && (unread + incoming)[n..] == unread[n..] + incoming
  {
  }

  lemma MoveOver(seen: string, left: string, n: nat)
    requires n <= |left|
    ensures seen + left == seen + left[..n] + left[n..]
    ensures n == 1 ==> left[..1] == [left[0]] && (seen + left)[|seen|] == left[0]
  {
  }

  lemma Parts(seen: string, left: string)
    ensures (seen + left)[..|seen|] == seen && (seen + left)[|seen|..] == left
  {
  }

  lemma LeftIsEnd(seen: string, left: string)
    ensures EndOf(left, seen + left)
  {
  }
}
