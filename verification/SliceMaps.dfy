/** A Go map of slices, as `Groups` and `SystemClients` are: a reference to a mutable map,
    different keys of which hold slices of different backing arrays. */
module SliceMaps {
  import opened Slices
  import opened Registry

  lemma Cut(all: seq<string>, len: nat, end: nat)
    requires len <= end <= |all|
    ensures all[..end] == all[..len] + all[len..][..end - len]
    ensures all[..end][..len] == all[..len] && all[..end][len..] == all[len..][..end - len]
  {
  }

  class SliceMap {
    var m: map<string, Slice<string>>
    ghost var Lists: Lookup
    ghost var Repr: set<object>

    /** `Lists` is what is seen through the stored slices. */
    ghost predicate Valid()
      reads this, Repr
      ensures Valid() ==> this in Repr
    {
      && this in Repr
      && (forall key :: key in m ==> m[key].data in Repr && m[key].len <= m[key].data.Length)
      && (forall j, k :: j in m && k in m && m[j].data == m[k].data ==> j == k)
      && Lists.Keys == m.Keys
      && (forall key :: key in m ==> Lists[key] == m[key].data[..m[key].len])
    }

    constructor ()
      ensures Valid() && fresh(Repr) && Lists == map[]
    {
      m, Lists, Repr := map[], map[], {this};
    }

    /** `len` of the map. */
    method Size() returns (n: nat)
      requires Valid()
      ensures n == |Lists|
    {
      n := |m|;
      assert |m.Keys| == |m| && |Lists.Keys| == |Lists|;
    }

    /** `m[key] = append(m[key], x)`, the nil slice when the key is absent. */
    method Append(key: string, x: string, growth: nat)
      requires Valid()
      modifies Repr
      ensures Valid() && fresh(Repr - old(Repr))
      ensures Lists == AppendTo(old(Lists), key, x)
    {
      var nothing := new string[0];
      var s := AppendSlice(if key in m then m[key] else Slice(nothing, 0), x, growth);
      Install(key, s);
    }

    /** The deletion loop on `m[key]`, as seen through an older header of the same array. */
    method DeleteUnder(header: Slice<string>, key: string, x: string, bound: nat) returns (panicked: bool)
      requires Valid() && key in m && m[key].data == header.data && m[key].len <= header.len <= header.data.Length
      modifies Repr
      ensures Valid() && Repr == old(Repr) && m.Keys == old(m).Keys
      ensures m[key].data == header.data && m[key].len <= header.len
      ensures var back, len := old(header.data[..header.len]), old(m[key].len);
              && Lists == old(Lists)[key := Delete(back[..len], x, bound).list]
              && panicked == Delete(back[..len], x, bound).panicked
              && header.data[..header.len] == BackAfter(back[..len], len, 0, x, bound) + back[len..]
    {
      ghost var was, len := header.data[..], m[key].len;
      Cut(was, len, header.len);
      panicked := DeleteAt(key, x, bound);
      Cut(header.data[..], len, header.len);
      assert header.data[..][..len] == header.data[..len] && header.data[..][len..] == was[len..];
    }

    /** Everything is in order for the other keys. */
    ghost predicate ValidBut(key: string)
      reads this, Repr
    {
      && this in Repr && Lists.Keys == m.Keys
      && (forall k :: k in m ==> m[k].data in Repr && m[k].len <= m[k].data.Length)
      && (forall j, k :: j in m && k in m && m[j].data == m[k].data ==> j == k)
      && (forall k :: k in m && k != key ==> Lists[k] == m[k].data[..m[k].len])
    }

    /** `m[key] = s`. */
    method Install(key: string, s: Slice<string>)
      requires ValidBut(key) && s.len <= s.data.Length
      requires forall k :: k in m && k != key ==> m[k].data != s.data
      modifies this
      ensures Valid() && m == old(m)[key := s] && Repr == old(Repr) + {s.data}
      ensures Lists == old(Lists)[key := s.data[..s.len]]
    {
      m := m[key := s];
      Lists := Lists[key := s.data[..s.len]];
      Repr := Repr + {s.data};
    }

    /** The deletion loop on the slice of `key`; nothing to range over when it is absent. */
    method DeleteAt(key: string, x: string, bound: nat) returns (panicked: bool)
      requires Valid()
      modifies Repr
      ensures Valid() && Repr == old(Repr)
      ensures (Lists, panicked) == DeleteIn(old(Lists), key, x, bound)
      ensures m.Keys == old(m).Keys
      ensures key in m ==>
                var was := old(m)[key];
                && m[key].data == was.data && m[key].len <= was.len
                && was.data[..was.len] == BackAfter(old(was.data[..was.len]), was.len, 0, x, bound)
                && was.data[was.len..] == old(was.data[was.len..])
    {
      panicked := false;
      if key in m {
        var stored;
        stored, panicked := DeleteInPlace(m[key], x, bound);
        Install(key, stored);
      }
    }
  }

  /** `append(s, x)`: in place while there is room, otherwise in a new array that is larger
      by `growth` more than needed. */
  method AppendSlice(s: Slice<string>, x: string, growth: nat) returns (r: Slice<string>)
    requires s.len <= s.data.Length
    modifies s.data
    ensures r.len == s.len + 1 <= r.data.Length
    ensures r.data == s.data || fresh(r.data)
    ensures r.data[..r.len] == old(s.data[..s.len]) + [x]
  {
    if s.len < s.data.Length {
      s.data[s.len] := x;
      r := Slice(s.data, s.len + 1);
    } else {
      var data := new string[s.len + 1 + growth](_ => "");
      forall i | 0 <= i < s.len {
        data[i] := s.data[i];
      }
      data[s.len] := x;
      r := Slice(data, s.len + 1);
    }
  }
}
