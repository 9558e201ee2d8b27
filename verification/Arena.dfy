/** The block that provenance lists are carved from (srcArena in snapshot.go and resolveShadow in
    precedence.go): one growing buffer, handed out in windows that later appends must not disturb. */
module Arena {
  import opened Values

  /** A slice of a backing array. */
  datatype Window = Window(buf: array<Label>, lo: nat, hi: nat)

  class SourceArena {
    var buf: array<Label>
    var len: nat
    /** Every window handed out, with the list it stands for. */
    ghost var issued: map<Window, seq<Label>>
    ghost var Repr: set<object>

    ghost predicate Valid()
      reads this, Repr
    {
      && this in Repr && buf in Repr && len <= buf.Length
      && forall w | w in issued ::
           && w.buf in Repr && w.lo <= w.hi <= w.buf.Length
           && (w.buf == buf ==> w.hi <= len)
           && w.buf[w.lo..w.hi] == issued[w]
    }

    ghost function Contents(): seq<Label>
      requires Valid()
      reads this, Repr
    {
      buf[..len]
    }

    constructor (capacity: nat)
      ensures Valid() && fresh(Repr) && Contents() == [] && issued == map[]
    {
      buf := new Label[capacity](_ => Unset);
      len := 0;
      issued := map[];
      new;
      Repr := {this, buf};
    }

    /** Go's append: in place while there is room, otherwise into a fresh, larger array. */
    method Append(x: Label)
      requires Valid()
      modifies Repr
      ensures Valid() && fresh(Repr - old(Repr))
      ensures Contents() == old(Contents()) + [x] && issued == old(issued)
    {
      if len == buf.Length { Grow(); }
      buf[len] := x;
      len := len + 1;
    }

    method Grow()
      requires Valid() && len == buf.Length
      modifies this`buf, this`Repr
      ensures Valid() && fresh(buf) && Repr == old(Repr) + {buf} && len < buf.Length
      ensures Contents() == old(Contents())
    {
      var full := buf;
      var bigger := new Label[2 * len + 1](i reads full => if 0 <= i < full.Length then full[i] else Unset);
      assert bigger[..len] == full[..len];
      buf := bigger;
      Repr := Repr + {bigger};
    }

    /** Hands out what was appended since start, as a[start:len(a):len(a)]. */
    method Carve(start: nat) returns (w: Window)
      requires Valid() && start <= len
      modifies this`issued
      ensures Valid() && Contents() == old(Contents()) && Repr == old(Repr)
      ensures issued == old(issued)[w := old(Contents())[start..]]
      ensures forall v | v in old(issued) :: v in issued && issued[v] == old(issued)[v]
    {
      w := Window(buf, start, len);
      issued := issued[w := buf[start..len]];
      assert buf[..len][start..] == buf[start..len];
    }

    /** The list a window stands for. */
    method Read(w: Window) returns (r: seq<Label>)
      requires Valid() && w in issued
      ensures r == issued[w]
    {
      r := w.buf[w.lo..w.hi];
    }
  }
}
