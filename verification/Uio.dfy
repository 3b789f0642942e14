/**
 Scatter/gather copying (`lib/ff_kern_subr.c`).

 A request describes, through its vector of (base, length) pairs, a sequence of addresses in user memory;
 `uiomove` moves bytes between a kernel buffer and the front of that sequence.
 */
module Uio {
  import opened Basics

  const UIO_MAXIOV := 1024

  /** `struct iovec`. */
  datatype Iovec = Iovec(base: nat, len: nat)

  datatype Direction = Read | Write | NoCopy

  function Total(iov: seq<Iovec>): nat { if iov == [] then 0 else iov[0].len + Total(iov[1..]) }

  /** The addresses a vector stands for, in order. */
  function Cells(iov: seq<Iovec>): seq<nat> {
    if iov == [] then [] else Span(iov[0].base, iov[0].len) + Cells(iov[1..])
  }

  function Span(base: nat, len: nat): (s: seq<nat>)
    ensures |s| == len && forall i :: 0 <= i < len ==> s[i] == base + i
  {
    seq(len, i requires 0 <= i => base + i)
  }

  lemma {:induction false} CellsLength(iov: seq<Iovec>)
    ensures |Cells(iov)| == Total(iov)
  {
    if iov != [] {
      CellsLength(iov[1..]);
    }
  }

  /** The bytes at some addresses. */
  function Gather(mem: seq<Byte>, cells: seq<nat>): seq<Byte>
    requires forall i :: 0 <= i < |cells| ==> cells[i] < |mem|
  {
    seq(|cells|, i requires 0 <= i < |cells| => mem[cells[i]])
  }

  /** Memory after writing bytes to addresses, one after the other. */
  function Scatter(mem: seq<Byte>, cells: seq<nat>, data: seq<Byte>): (r: seq<Byte>)
    requires |cells| == |data| && forall i :: 0 <= i < |cells| ==> cells[i] < |mem|
    ensures |r| == |mem|
  {
    if cells == [] then mem
    else
      var n := |cells| - 1;
      Scatter(mem, cells[..n], data[..n])[cells[n] := data[n]]
  }

  /** Writing in two parts is writing at once. */
  lemma {:induction false} ScatterAppend(mem: seq<Byte>, a: seq<nat>, d: seq<Byte>, b: seq<nat>, e: seq<Byte>)
    requires |a| == |d| && |b| == |e|
    requires forall i :: 0 <= i < |a| ==> a[i] < |mem|
    requires forall i :: 0 <= i < |b| ==> b[i] < |mem|
    ensures Scatter(mem, a + b, d + e) == Scatter(Scatter(mem, a, d), b, e)
    decreases |b|
  {
    if b == [] {
      assert a + b == a && d + e == d;
    } else {
      var n := |b| - 1;
      ScatterAppend(mem, a, d, b[..n], e[..n]);
      assert (a + b)[..|a| + n] == a + b[..n] && (d + e)[..|a| + n] == d + e[..n];
    }
  }

  /** A contiguous stretch. */
  lemma {:induction false} ScatterSpan(mem: seq<Byte>, base: nat, data: seq<Byte>)
    requires base + |data| <= |mem|
    ensures Scatter(mem, Span(base, |data|), data) == mem[..base] + data + mem[base + |data|..]
    decreases |data|
  {
    var n := |data| - 1;
    if n >= 0 {
      ScatterSpan(mem, base, data[..n]);
      assert Span(base, |data|)[..n] == Span(base, n);
    } else {
      assert mem == mem[..base] + data + mem[base..];
    }
  }

  /** If no address occurs twice, reading back what was written gives the same bytes. */
  lemma {:induction false} ScatterGather(mem: seq<Byte>, cells: seq<nat>, data: seq<Byte>)
    requires |cells| == |data| && forall i :: 0 <= i < |cells| ==> cells[i] < |mem|
    requires NoDup(cells)
    ensures Gather(Scatter(mem, cells, data), cells) == data
  {
    if cells != [] {
      var n := |cells| - 1;
      ScatterGather(mem, cells[..n], data[..n]);
      var r := Scatter(mem, cells[..n], data[..n]);
      forall i | 0 <= i < |cells| ensures r[cells[n] := data[n]][cells[i]] == data[i] {
        if i < n {
          assert Gather(r, cells[..n])[i] == data[..n][i];
        }
      }
    }
  }

  // ---- one turn of the loop

  /** The vector after cnt bytes of its first entry have been used. */
  function Used(iov: seq<Iovec>, cnt: nat): seq<Iovec>
    requires iov != [] && cnt <= iov[0].len
  {
    [Iovec(iov[0].base + cnt, iov[0].len - cnt)] + iov[1..]
  }

  lemma UsedCells(iov: seq<Iovec>, cnt: nat)
    requires iov != [] && cnt <= iov[0].len
    ensures cnt <= |Cells(iov)| && Cells(iov)[..cnt] == Span(iov[0].base, cnt)
    ensures Cells(Used(iov, cnt)) == Cells(iov)[cnt..] && Total(Used(iov, cnt)) == Total(iov) - cnt
  {
    assert Used(iov, cnt)[1..] == iov[1..];
    SpanParts(iov[0].base, iov[0].len, cnt);
    CutInFirst(Span(iov[0].base, iov[0].len), Cells(iov[1..]), cnt);
  }

  lemma SpanParts(base: nat, len: nat, cnt: nat)
    requires cnt <= len
    ensures Span(base, len)[..cnt] == Span(base, cnt) && Span(base, len)[cnt..] == Span(base + cnt, len - cnt)
  {
  }

  lemma CutInFirst(s: seq<nat>, t: seq<nat>, k: nat)
    requires k <= |s|
    ensures (s + t)[..k] == s[..k] && (s + t)[k..] == s[k..] + t
  {
  }

  lemma EmptyCells(iov: seq<Iovec>)
    requires iov != [] && iov[0].len == 0
    ensures Cells(iov) == Cells(iov[1..]) && Total(iov) == Total(iov[1..])
  {
  }

  /** Memory and buffer after bytes have been moved between `cells` and the buffer from position p on. */
  ghost predicate Moved(dir: Direction, user: seq<Byte>, kern: seq<Byte>, p: nat, cells: seq<nat>,
                        user': seq<Byte>, kern': seq<Byte>)
  {
    && p + |cells| <= |kern| && (forall i :: 0 <= i < |cells| ==> cells[i] < |user|)
    && match dir
       case Read => kern' == kern && user' == Scatter(user, cells, kern[p..p + |cells|])
       case Write => user' == user && kern' == kern[..p] + Gather(user, cells) + kern[p + |cells|..]
       case NoCopy => user' == user && kern' == kern
  }

  lemma Slices(s: seq<Byte>, p: nat, a: nat, b: nat)
    requires p + a + b <= |s|
    ensures s[p..p + a] + s[p + a..p + a + b] == s[p..p + (a + b)]
  {
  }

  lemma Spliced(s: seq<Byte>, s': seq<Byte>, p: nat, d: seq<Byte>)
    requires p + |d| <= |s| == |s'|
    requires forall i :: 0 <= i < |s| ==> s'[i] == if p <= i < p + |d| then d[i - p] else s[i]
    ensures s' == s[..p] + d + s[p + |d|..]
  {
  }

  /** Two successive moves are one combined move. */
  lemma MovesCompose(dir: Direction, u0: seq<Byte>, k0: seq<Byte>, p: nat, a: seq<nat>, u1: seq<Byte>, k1: seq<Byte>,
                     b: seq<nat>, u2: seq<Byte>, k2: seq<Byte>)
    requires Moved(dir, u0, k0, p, a, u1, k1) && Moved(dir, u1, k1, p + |a|, b, u2, k2)
    ensures Moved(dir, u0, k0, p, a + b, u2, k2)
  {
    match dir
    case Read =>
      ScatterAppend(u0, a, k0[p..p + |a|], b, k0[p + |a|..p + |a| + |b|]);
      Slices(k0, p, |a|, |b|);
    case Write =>
      assert Gather(u0, a) + Gather(u0, b) == Gather(u0, a + b);
    case NoCopy =>
  }

  /** `struct uio`, with the user memory it points into. */
  class Request {
    const user: array<Byte>
    const dir: Direction
    var iov: seq<Iovec>     // from `uio_iov` on; its length is `uio_iovcnt`
    var resid: int
    var offset: int

    /** What `copyinuio` establishes and `uiomove` keeps. */
    ghost predicate Valid()
      reads this, user
    {
      && resid == Total(iov) <= INT_MAX && |iov| <= UIO_MAXIOV
      && forall i :: 0 <= i < |Cells(iov)| ==> Cells(iov)[i] < user.Length
    }

    constructor (user: array<Byte>, dir: Direction, iov: seq<Iovec>, resid: int)
      ensures this.user == user && this.dir == dir && this.iov == iov && this.resid == resid && offset == -1
    {
      this.user, this.dir, this.iov, this.resid, offset := user, dir, iov, resid, -1;
    }

    /** `copyout`, `copyin` or `bcopy`, for one entry of the vector. */
    method Copy(base: nat, kern: array<Byte>, p: nat, cnt: nat)
      requires kern != user && base + cnt <= user.Length && p + cnt <= kern.Length
      modifies user, kern
      ensures Moved(dir, old(user[..]), old(kern[..]), p, Span(base, cnt), user[..], kern[..])
    {
      match dir {
        case Read => CopyOut(base, kern, p, cnt);
        case Write => CopyIn(base, kern, p, cnt);
        case NoCopy =>
      }
    }

    method CopyOut(base: nat, kern: array<Byte>, p: nat, cnt: nat)
      requires kern != user && base + cnt <= user.Length && p + cnt <= kern.Length
      modifies user
      ensures Moved(Read, old(user[..]), kern[..], p, Span(base, cnt), user[..], kern[..])
    {
      ghost var u, data := user[..], kern[..][p..p + cnt];
      forall i | 0 <= i < cnt {
        user[base + i] := kern[p + i];
      }
      Spliced(u, user[..], base, data);
      ScatterSpan(u, base, data);
      assert kern[..][p..p + |Span(base, cnt)|] == data;
    }

    method CopyIn(base: nat, kern: array<Byte>, p: nat, cnt: nat)
      requires kern != user && base + cnt <= user.Length && p + cnt <= kern.Length
      modifies kern
      ensures Moved(Write, user[..], old(kern[..]), p, Span(base, cnt), user[..], kern[..])
    {
      ghost var k, data := kern[..], Gather(user[..], Span(base, cnt));
      forall i | 0 <= i < cnt {
        kern[p + i] := user[base + i];
      }
      Spliced(k, kern[..], p, data);
    }

    /** One turn of the loop of `uiomove`. */
    method Step(kern: array<Byte>, p: nat, n: nat) returns (cnt: nat)
      requires Valid() && kern != user && 0 < n && p + n <= kern.Length && resid > 0
      modifies this, user, kern
      ensures Valid() && cnt <= n && cnt <= |old(Cells(iov))|
      ensures Moved(dir, old(user[..]), old(kern[..]), p, old(Cells(iov))[..cnt], user[..], kern[..])
      ensures Cells(iov) == old(Cells(iov))[cnt..] && offset == old(offset) + cnt && resid == old(resid) - cnt
      ensures |iov| < |old(iov)| || cnt > 0
    {
      cnt := iov[0].len;
      if cnt == 0 {
        EmptyCells(iov);
        iov := iov[1..];
        MovedNothing(dir, user[..], kern[..], p);
        assert old(Cells(iov))[..0] == [];
      } else {
        if cnt > n {
          cnt := n;
        }
        UsedCells(iov, cnt);
        LastCell(iov, cnt, user.Length);
        Copy(iov[0].base, kern, p, cnt);
        iov := Used(iov, cnt);
        resid := resid - cnt;
        offset := offset + cnt;
      }
    }

    /**
     `uiomove`: exactly min(n, resid) bytes, in order, between the buffer from p on and the front of the vector;
     the rest of the vector is left for the next call.
     */
    method Move(kern: array<Byte>, p: nat, n: int) returns (error: int)
      requires Valid() && kern != user && (n > 0 ==> p + n <= kern.Length) && p <= kern.Length
      modifies this, user, kern
      ensures Valid() && error == 0
      ensures var m := if n <= 0 then 0 else if n < old(resid) then n else old(resid);
              && m <= |old(Cells(iov))| && resid == old(resid) - m && offset == old(offset) + m
              && Cells(iov) == old(Cells(iov))[m..]
              && Moved(dir, old(user[..]), old(kern[..]), p, old(Cells(iov))[..m], user[..], kern[..])
    {
      ghost var u, k, cells := user[..], kern[..], Cells(iov);
      CellsLength(iov);
      ghost var d := MoveSome(kern, p, if n > 0 then n else 0);
      assert Progress(dir, u, k, p, cells, d, Cells(iov), user[..], kern[..]);
      error := 0;
    }

    /** The loop; d is how far it got. */
    method MoveSome(kern: array<Byte>, p: nat, n: nat) returns (ghost d: nat)
      requires Valid() && kern != user && p + n <= kern.Length
      modifies this, user, kern
      ensures Valid() && d == (if n < old(resid) then n else old(resid))
      ensures resid == old(resid) - d && offset == old(offset) + d
      ensures Progress(dir, old(user[..]), old(kern[..]), p, old(Cells(iov)), d, Cells(iov), user[..], kern[..])
    {
      ghost var u0, k0, cells := user[..], kern[..], Cells(iov);
      NoProgress(dir, u0, k0, p, cells);
      var done := 0;
      while done < n && resid != 0
        invariant Valid() && 0 <= done <= n && offset == old(offset) + done && resid == old(resid) - done
        invariant Progress(dir, u0, k0, p, cells, done, Cells(iov), user[..], kern[..])
        decreases n - done, |iov|
      {
        var cnt := Advance(kern, p, done, n, u0, k0, cells);
        done := done + cnt;
      }
      d := done;
    }

    method Advance(kern: array<Byte>, p: nat, done: nat, n: nat, ghost u0: seq<Byte>, ghost k0: seq<Byte>,
        ghost cells: seq<nat>)
      returns (cnt: nat)
      requires Valid() && kern != user && done < n && p + n <= kern.Length && resid > 0
      requires Progress(dir, u0, k0, p, cells, done, Cells(iov), user[..], kern[..])
      modifies this, user, kern
      ensures Valid() && done + cnt <= n && resid == old(resid) - cnt && offset == old(offset) + cnt
      ensures Progress(dir, u0, k0, p, cells, done + cnt, Cells(iov), user[..], kern[..])
      ensures |iov| < |old(iov)| || cnt > 0
    {
      ghost var u, k, rest := user[..], kern[..], Cells(iov);
      cnt := Step(kern, p + done, n - done);
      MoreProgress(dir, u0, k0, p, cells, done, rest, u, k, cnt, Cells(iov), user[..], kern[..]);
    }
  }

  lemma NoProgress(dir: Direction, u: seq<Byte>, k: seq<Byte>, p: nat, cells: seq<nat>)
    requires p <= |k|
    ensures Progress(dir, u, k, p, cells, 0, cells, u, k)
  {
    MovedNothing(dir, u, k, p);
    assert cells[..0] == [];
  }

  /** The first d of the cells have been served, and `rest` are still to come. */
  ghost predicate Progress(dir: Direction, u0: seq<Byte>, k0: seq<Byte>, p: nat, cells: seq<nat>, d: nat,
                           rest: seq<nat>, u: seq<Byte>, k: seq<Byte>)
  {
    d <= |cells| && rest == cells[d..] && Moved(dir, u0, k0, p, cells[..d], u, k)
  }

  lemma MoreProgress(dir: Direction, u0: seq<Byte>, k0: seq<Byte>, p: nat, cells: seq<nat>, d: nat, rest: seq<nat>,
                     u: seq<Byte>, k: seq<Byte>, cnt: nat, rest': seq<nat>, u': seq<Byte>, k': seq<Byte>)
    requires Progress(dir, u0, k0, p, cells, d, rest, u, k) && cnt <= |rest| && rest' == rest[cnt..]
    requires Moved(dir, u, k, p + d, rest[..cnt], u', k')
    ensures Progress(dir, u0, k0, p, cells, d + cnt, rest', u', k')
  {
    MovesCompose(dir, u0, k0, p, cells[..d], u, k, rest[..cnt], u', k');
    assert cells[..d] + rest[..cnt] == cells[..d + cnt];
  }

  lemma MovedNothing(dir: Direction, user: seq<Byte>, kern: seq<Byte>, p: nat)
    requires p <= |kern|
    ensures Moved(dir, user, kern, p, [], user, kern)
  {
    assert kern == kern[..p] + Gather(user, []) + kern[p..];
  }

  lemma LastCell(iov: seq<Iovec>, cnt: nat, size: nat)
    requires iov != [] && 0 < cnt <= iov[0].len && forall i :: 0 <= i < |Cells(iov)| ==> Cells(iov)[i] < size
    ensures iov[0].base + cnt <= size
  {
    assert Cells(iov)[cnt - 1] == Span(iov[0].base, iov[0].len)[cnt - 1];
  }

  /** `copyinuio`; the outcome of the allocation and of `copyin` are parameters. */
  method CopyInUio(user: array<Byte>, dir: Direction, iovp: seq<Iovec>, granted: bool, fault: int)
    returns (error: int, uio: Request?)
    ensures error == 0 <==> |iovp| <= UIO_MAXIOV && granted && fault == 0 && Total(iovp) <= INT_MAX
    ensures error == 0 ==> uio != null && fresh(uio) && uio.user == user && uio.dir == dir && uio.iov == iovp
    ensures error == 0 ==> uio.resid == Total(iovp)
    ensures error != 0 ==> uio == null
    ensures |iovp| > UIO_MAXIOV ==> error == EINVAL
    ensures |iovp| <= UIO_MAXIOV && !granted ==> error == ENOMEM
    ensures |iovp| <= UIO_MAXIOV && granted && fault != 0 ==> error == fault
    ensures |iovp| <= UIO_MAXIOV && granted && fault == 0 && Total(iovp) > INT_MAX ==> error == EINVAL
  {
    uio := null;
    if |iovp| > UIO_MAXIOV {
      return EINVAL, null;
    }
    if !granted {
      return ENOMEM, null;
    }
    if fault != 0 {
      return fault, null;
    }
    var resid := 0;
    for i := 0 to |iovp|
      invariant 0 <= resid <= INT_MAX && resid + Total(iovp[i..]) == Total(iovp)
    {
      assert iovp[i..][1..] == iovp[i + 1..];
      if iovp[i].len > INT_MAX - resid {
        return EINVAL, null;
      }
      resid := resid + iovp[i].len;
    }
    uio := new Request(user, dir, iovp, resid);
    error := 0;
  }
}
