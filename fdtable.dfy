/** A process's file descriptor table as an array indexed by descriptor
    number, with the operations the dispatch path uses on it: allocation of the
    lowest free descriptor, `dup2`, and the per-direction wiring of a child's
    standard streams before it runs the clipboard command. */
module FdTable {
  import opened Sys

  /** What a descriptor refers to. `Inherited(n)` is whatever descriptor n
      referred to when rclip started (its standard streams, for n < 3). */
  datatype File = Closed | Inherited(n: nat) | Listener(dir: Direction) | Null | Conn(serial: nat)

  /** The half of a connection the child shuts before running its command. */
  datatype Shut = ShutRd | ShutWr

  const STDIN: nat := 0
  const STDOUT: nat := 1
  const STDERR: nat := 2

  /** The lowest-numbered closed descriptor, which Linux hands out for a new one. */
  function FirstClosed(t: seq<File>): (r: Option<nat>)
    ensures r.Some? ==> r.value < |t| && t[r.value] == Closed
    ensures r.Some? ==> forall k :: 0 <= k < r.value ==> t[k] != Closed
    ensures r.None? ==> forall k :: 0 <= k < |t| ==> t[k] != Closed
  {
    if t == [] then None
    else if t[0] == Closed then Some(0)
    else match FirstClosed(t[1..])
      case None => None
      case Some(k) => Some(k + 1)
  }

  /** The allocation scan over the table. */
  method LowestClosed(t: array<File>) returns (r: Option<nat>)
    ensures r == FirstClosed(t[..])
  {
    var i := 0;
    while i < t.Length
      invariant 0 <= i <= t.Length
      invariant forall k :: 0 <= k < i ==> t[k] != Closed
    {
      if t[i] == Closed {
        FirstClosedUnique(t[..], i);
        return Some(i);
      }
      i := i + 1;
    }
    r := None;
  }

  lemma FirstClosedUnique(t: seq<File>, i: nat)
    requires i < |t| && t[i] == Closed
    requires forall k :: 0 <= k < i ==> t[k] != Closed
    ensures FirstClosed(t) == Some(i)
  {
  }

  /** `dup2(oldfd, newfd)`: newfd comes to refer to what oldfd refers to. A
      closed or out-of-table oldfd, or an out-of-table newfd, is EBADF and
      changes nothing. */
  function Dup2Spec(t: seq<File>, oldfd: int, newfd: int): (r: seq<File>)
  {
    if 0 <= oldfd < |t| && t[oldfd] != Closed && 0 <= newfd < |t| then t[newfd := t[oldfd]] else t
  }

  method Dup2(t: array<File>, oldfd: int, newfd: int)
    modifies t
    ensures t[..] == Dup2Spec(old(t[..]), oldfd, newfd)
  {
    if 0 <= oldfd < t.Length && t[oldfd] != Closed && 0 <= newfd < t.Length {
      t[newfd] := t[oldfd];
    }
  }

  /** The child's table after its three `dup2` calls, in the source's order. */
  function Wired(t: seq<File>, conn: int, devnull: int, dir: Direction): (r: seq<File>)
  {
    match dir
    case Copy => Dup2Spec(Dup2Spec(Dup2Spec(t, conn, STDIN), devnull, STDOUT), devnull, STDERR)
    case Paste => Dup2Spec(Dup2Spec(Dup2Spec(t, devnull, STDIN), conn, STDOUT), devnull, STDERR)
  }

  function ShutFor(dir: Direction): (s: Shut)
    ensures s == ShutWr <==> dir == Copy
  {
    if dir == Copy then ShutWr else ShutRd
  }

  /** The child side of a dispatch, before `execl`: shut one half of the
      connection, then rewire descriptors 0, 1 and 2 in place. */
  method WireChild(t: array<File>, conn: int, devnull: int, dir: Direction) returns (shut: Shut)
    modifies t
    ensures shut == ShutFor(dir)
    ensures t[..] == Wired(old(t[..]), conn, devnull, dir)
    ensures STDERR < conn < t.Length && STDERR < devnull < t.Length &&
            old(t[conn]) != Closed && old(t[devnull]) != Closed ==>
              && t[STDIN] == (if dir == Copy then old(t[conn]) else old(t[devnull]))
              && t[STDOUT] == (if dir == Copy then old(t[devnull]) else old(t[conn]))
              && t[STDERR] == old(t[devnull])
              && forall k :: STDERR < k < t.Length ==> t[k] == old(t[k])
  {
    if dir == Copy {
      shut := ShutWr;
      Dup2(t, conn, STDIN);
      Dup2(t, devnull, STDOUT);
      Dup2(t, devnull, STDERR);
    } else {
      shut := ShutRd;
      Dup2(t, devnull, STDIN);
      Dup2(t, conn, STDOUT);
      Dup2(t, devnull, STDERR);
    }
    if STDERR < conn < t.Length && STDERR < devnull < t.Length && old(t[conn]) != Closed && old(t[devnull]) != Closed {
      WiredStdio(old(t[..]), conn, devnull, dir);
    }
  }

  /** With the connection and the null device both open above the standard
      descriptors, a copy child reads the connection on 0 and writes 1 and 2 to
      the null device; a paste child reads the null device on 0, writes the
      connection on 1 and the null device on 2. Nothing else changes. */
  lemma WiredStdio(t: seq<File>, conn: nat, devnull: nat, dir: Direction)
    requires STDERR < conn < |t| && STDERR < devnull < |t|
    requires t[conn] != Closed && t[devnull] != Closed
    ensures var w := Wired(t, conn, devnull, dir);
            && |w| == |t|
            && w[STDIN] == (if dir == Copy then t[conn] else t[devnull])
            && w[STDOUT] == (if dir == Copy then t[devnull] else t[conn])
            && w[STDERR] == t[devnull]
            && forall k :: STDERR < k < |t| ==> w[k] == t[k]
  {
  }

  /** The wiring needs the null device off descriptor 1: a paste child whose
      null device sat on descriptor 1 would get the connection on 2 as well. */
  lemma WiredNeedsHighNull(t: seq<File>, conn: nat)
    requires |t| > conn > STDERR && t[conn] != Closed && t[STDOUT] != Closed
    ensures Wired(t, conn, STDOUT, Paste)[STDERR] == t[conn]
  {
  }
}
