/** The arena a view tree is built in: a list of chunks filled by bumping, rewound and refilled. */
module Arena {
  import opened Wrappers

  const CHUNK_MIN: nat := 256 * 1024

  /** Sizes are rounded up to a multiple of 16. */
  function Rounded(size: nat): (r: nat)
    ensures size <= r < size + 16 && r % 16 == 0
  {
    (size + 15) / 16 * 16
  }

  /** A chunk: its memory, how much of it is in use, and the chunk behind it. */
  class Chunk {
    const cap: nat
    var data: seq<int>
    var used: nat
    var next: Chunk?

    constructor (cap: nat)
      ensures this.cap == cap && |data| == cap && used == 0 && next == null
    {
      this.cap := cap;
      data, used, next := seq(cap, _ => 0), 0, null;
    }
  }

  /** Memory handed out: part of a chunk. */
  datatype Block = Block(chunk: Chunk, start: nat, len: nat)
  {
    function End(): nat { start + len }

    predicate Apart(other: Block)
    {
      chunk != other.chunk || End() <= other.start || other.End() <= start
    }

    function Contents(): seq<int>
      requires End() <= |chunk.data|
      reads chunk
    {
      chunk.data[start..End()]
    }
  }

  class Arena {
    var head: Chunk?
    var cur: Chunk?
    /** The chunks reachable from the head, the index of the current one, and the blocks handed out
        since the last reset. */
    ghost var spine: seq<Chunk>
    ghost var at: nat
    ghost var blocks: seq<Block>

    /** A chunk is followed by the next one of the list. */
    ghost predicate Link(i: nat)
      requires i < |spine|
      reads this, spine
    {
      spine[i].next == if i + 1 < |spine| then spine[i + 1] else null
    }

    /** Links depend only on the list and the chunks' next pointers. */
    twostate lemma LinksKept()
      requires spine == old(spine) && forall c <- spine :: allocated(c) && c.next == old(c.next)
      ensures forall i :: 0 <= i < |spine| && old(i < |spine| && Link(i)) ==> Link(i)
    {
    }

    /** The list runs through distinct chunks from the head, and the current one is among them. */
    ghost predicate Linked()
      reads this, spine
    {
      && (head == null <==> spine == [])
      && (spine != [] ==> head == spine[0])
      && (forall i :: 0 <= i < |spine| ==> Link(i))
      && (forall i, j :: 0 <= i < j < |spine| ==> spine[i] != spine[j])
      && (if spine == [] then cur == null else at < |spine| && cur == spine[at])
    }

    /** No chunk is overfull, and those behind the current one are unused. */
    ghost predicate Filled()
      reads this, spine
    {
      && (forall i :: 0 <= i < |spine| ==> spine[i].used <= spine[i].cap == |spine[i].data|)
      && (forall i :: at < i < |spine| ==> spine[i].used == 0)
    }

    ghost predicate InUse(b: Block)
      reads this, spine
    {
      b.chunk in spine && b.End() <= b.chunk.used
    }

    /** Blocks lie in the used part of chunks and do not overlap. */
    ghost predicate Sound()
      reads this, spine
    {
      && (forall b <- blocks :: InUse(b))
      && (forall i, j :: 0 <= i < j < |blocks| ==> blocks[i].Apart(blocks[j]))
    }

    ghost predicate Valid()
      reads this, spine
    {
      Linked() && Filled() && Sound()
    }

    constructor ()
      ensures Valid() && spine == [] && blocks == []
    {
      head, cur, spine, at, blocks := null, null, [], 0, [];
    }

    /** Put a chunk behind the current one and make it current. */
    method Splice(c: Chunk)
      requires Valid() && cur != null && c !in spine && c.used == 0 && |c.data| == c.cap
      modifies this`cur, this`spine, this`at, cur`next, c`next
      ensures Valid() && cur == c && c.used == 0 && blocks == old(blocks)
      ensures spine == old(spine[..at + 1]) + [c] + old(spine[at + 1..])
    {
      ghost var was, k := spine, at + 1;
      Inserted(was, k, c);
      assert Link(at) && (k < |was| ==> Link(k));
      c.next := cur.next;
      cur.next := c;
      cur := c;
      spine := was[..k] + [c] + was[k..];
      at := k;
      hide Block.Apart;
      forall i | 0 <= i < |spine|
        ensures Link(i)
      {
        assert i < k ==> old(Link(i));
        assert i > k ==> old(Link(i - 1));
      }
      assert Linked();
      hide Arena.Linked;
      hide Arena.Link;
      assert Filled();
      hide Arena.Filled;
      forall b | b in blocks
        ensures InUse(b)
      {
        assert old(InUse(b));
      }
      hide Arena.InUse;
    }

    /** Start the list with a chunk. */
    method Start(c: Chunk)
      requires Valid() && cur == null && c.used == 0 && c.next == null && |c.data| == c.cap
      modifies this`head, this`cur, this`spine, this`at
      ensures Valid() && cur == c && spine == [c] && blocks == old(blocks)
    {
      head, cur := c, c;
      spine, at := [c], 0;
    }

    /** Move on to the chunk behind the current one. */
    method Advance()
      requires Valid() && cur != null && cur.next != null
      modifies this`cur, this`at, cur.next`used
      ensures Valid() && cur == old(cur.next) && cur.used == 0 && spine == old(spine) && blocks == old(blocks)
      ensures forall c <- spine :: c.used == old(c.used)
    {
      assert Link(at);
      label before:
      cur := cur.next;
      cur.used := 0;
      at := at + 1;
      LinksKept@before();
    }

    /** Hand out the next `size` bytes of the current chunk, zeroed. */
    method Bump(size: nat) returns (b: Block)
      requires Valid() && cur != null && cur.used + size <= cur.cap
      modifies this`blocks, cur`used, cur`data
      ensures Valid() && b == Block(cur, old(cur.used), size) && blocks == old(blocks) + [b] && spine == old(spine)
      ensures b.End() <= |cur.data| && b.Contents() == seq(size, _ => 0)
      ensures forall x <- old(blocks) :: InUse(x) && x.Contents() == old(x.Contents())
    {
      b := Block(cur, cur.used, size);
      label before:
      assert forall x <- blocks :: InUse(x) && x.Apart(b);
      assert cur == spine[at];
      cur.data := cur.data[..cur.used] + seq(size, _ => 0) + cur.data[cur.used + size..];
      cur.used := cur.used + size;
      blocks := blocks + [b];
      LinksKept@before();
    }

    /** Make sure there is a current chunk with room, if memory allows. */
    method MakeRoom(size: nat, oom: bool) returns (ok: bool)
      requires Valid()
      modifies this`head, this`cur, this`spine, this`at, spine
      ensures Valid() && blocks == old(blocks)
      ensures ok ==> cur != null && cur.used + size <= cur.cap
      ensures !ok ==> oom
      ensures (forall c <- spine :: c in old(spine) || fresh(c)) && forall c <- old(spine) :: c in spine
      ensures forall c <- old(spine) :: c.data == old(c.data) && c.used == old(c.used)
    {
      if cur == null {
        if oom {
          return false;
        }
        var c := new Chunk(if size > CHUNK_MIN then size else CHUNK_MIN);
        Start(c);
      }
      if cur.used + size > cur.cap {
        assert Link(at);
        if cur.next != null && size <= cur.next.cap {
          assert cur.next == spine[at + 1];
          Advance();
        } else {
          if oom {
            return false;
          }
          var c := new Chunk(if size > CHUNK_MIN then size else CHUNK_MIN);
          Splice(c);
        }
      }
      return true;
    }

    /** Allocate: a zeroed block apart from every other, none of which moves or changes. */
    method Alloc(bytes: nat, oom: bool) returns (b: Option<Block>)
      requires Valid()
      modifies this, spine
      ensures Valid()
      ensures b == None ==> oom && blocks == old(blocks)
      ensures b.Some? ==> blocks == old(blocks) + [b.value] && b.value.len == Rounded(bytes)
      ensures forall x <- blocks :: InUse(x) && x.End() <= |x.chunk.data|
      ensures b.Some? ==> b.value.Contents() == seq(Rounded(bytes), _ => 0)
      ensures forall x <- old(blocks) :: x.Contents() == old(x.Contents())
      ensures (forall c <- spine :: c in old(spine) || fresh(c)) && forall c <- old(spine) :: c in spine
    {
      var size := Rounded(bytes);
      var ok := MakeRoom(size, oom);
      if !ok {
        return None;
      }
      assert cur in spine;
      var block := Bump(size);
      return Some(block);
    }

    /** Mark every chunk unused, from the head. */
    method Clear()
      requires Linked()
      modifies spine
      ensures Linked()
      ensures forall c <- spine :: c.used == 0 && c.data == old(c.data)
    {
      var c := head;
      ghost var i := 0;
      while c != null
        invariant i <= |spine| && c == (if i < |spine| then spine[i] else null)
        invariant forall x <- spine :: x.next == old(x.next) && x.data == old(x.data)
        invariant forall j :: 0 <= j < i ==> spine[j].used == 0
        decreases |spine| - i
      {
        assert old(Link(i));
        c.used := 0;
        c := c.next;
        i := i + 1;
      }
      LinksKept();
    }

    /** Rewind every chunk for the next build; none is given up. */
    method Reset()
      requires Valid()
      modifies this`cur, this`at, this`blocks, spine
      ensures Valid() && blocks == [] && spine == old(spine) && cur == head
      ensures forall c <- spine :: c.used == 0
    {
      Clear();
      label before:
      cur := head;
      at, blocks := 0, [];
      LinksKept@before();
    }
  }

  /** Building into one arena leaves everything in another one as it is. */
  method AllocBeside(a: Arena, other: Arena, bytes: nat, oom: bool) returns (b: Option<Block>)
    requires a.Valid() && other.Valid() && a != other && forall c <- a.spine :: c !in other.spine
    modifies a, a.spine
    ensures a.Valid() && other.Valid() && forall c <- a.spine :: c !in other.spine
    ensures other.blocks == old(other.blocks) && other.spine == old(other.spine)
    ensures forall x <- other.blocks :: x.End() <= |x.chunk.data| && x.Contents() == old(x.Contents())
  {
    assert forall x <- other.blocks :: other.InUse(x) && x.End() <= |x.chunk.data|;
    assert forall c <- other.spine :: c !in a.spine;
    b := a.Alloc(bytes, oom);
    assert forall c <- other.spine :: c.data == old(c.data) && c.used == old(c.used) && c.next == old(c.next);
    other.LinksKept();
  }

  /** Where everything is after an insertion. */
  lemma Inserted<T>(s: seq<T>, k: nat, c: T)
    requires k <= |s|
    ensures var r := s[..k] + [c] + s[k..];
            && |r| == |s| + 1
            && (forall i :: 0 <= i < k ==> r[i] == s[i])
            && r[k] == c
            && (forall i :: k < i < |r| ==> r[i] == s[i - 1])
            && (forall x <- s :: x in r)
  {
    var r := s[..k] + [c] + s[k..];
    forall x <- s
      ensures x in r
    {
      var i :| 0 <= i < |s| && s[i] == x;
      assert r[if i < k then i else i + 1] == x;
    }
  }
}
