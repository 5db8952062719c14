/** The dynamic table (section 4 of RFC 7541) as a value: newest entry first. */
module HpackTable {
  import opened Bits
  import opened Wrappers
  import opened Headers

  datatype DynTable = DynTable(entries: seq<Header>, max: uint32)

  /** Section 4.1's entry size, in the 32 bits it is computed in. */
  function EntrySize(h: Header): uint32 {
    (|h.name| + |h.value| + 32) % 0x1_0000_0000
  }

  function TotalSize(entries: seq<Header>): nat {
    if entries == [] then 0
    else TotalSize(entries[..|entries| - 1]) + EntrySize(entries[|entries| - 1])
  }

  lemma TotalSizeNone()
    ensures TotalSize([]) == 0
  {
  }

  /** Drop the oldest entries while the rest does not fit. */
  function Evict(entries: seq<Header>, limit: nat): (r: seq<Header>)
    ensures r <= entries
    ensures TotalSize(r) <= limit
  {
    if TotalSize(entries) > limit && entries != [] then Evict(entries[..|entries| - 1], limit) else entries
  }

  /** Eviction keeps the longest run of newest entries that fits. */
  lemma {:induction false} EvictKeepsLongest(entries: seq<Header>, limit: nat, k: nat)
    requires k <= |entries|
    ensures TotalSize(entries[..k]) <= limit <==> k <= |Evict(entries, limit)|
  {
    if TotalSize(entries) > limit && entries != [] {
      var rest := entries[..|entries| - 1];
      if k <= |rest| {
        assert rest[..k] == entries[..k];
        EvictKeepsLongest(rest, limit, k);
      } else {
        assert entries[..k] == entries;
      }
    } else {
      TotalSizeMonotonic(entries, k);
    }
  }

  lemma {:induction false} TotalSizeMonotonic(entries: seq<Header>, k: nat)
    requires k <= |entries|
    ensures TotalSize(entries[..k]) <= TotalSize(entries)
  {
    if k == |entries| {
      assert entries[..k] == entries;
    } else {
      var rest := entries[..|entries| - 1];
      assert rest[..k] == entries[..k];
      TotalSizeMonotonic(rest, k);
    }
  }

  lemma {:induction false} TotalSizeCons(h: Header, entries: seq<Header>)
    ensures TotalSize([h] + entries) == EntrySize(h) + TotalSize(entries)
  {
    var all := [h] + entries;
    if entries == [] {
      assert all[..0] == [];
    } else {
      assert all[..|all| - 1] == [h] + entries[..|entries| - 1];
      TotalSizeCons(h, entries[..|entries| - 1]);
    }
  }

  /** An entry larger than the whole table empties it (section 4.4). */
  function Add(d: DynTable, h: Header): (r: DynTable)
    ensures r.max == d.max
    ensures TotalSize(r.entries) <= r.max
  {
    if EntrySize(h) > d.max then d.(entries := [])
    else
      TotalSizeCons(h, Evict(d.entries, d.max - EntrySize(h)));
      d.(entries := [h] + Evict(d.entries, d.max - EntrySize(h)))
  }

  function SetMax(d: DynTable, max: uint32): (r: DynTable)
    ensures TotalSize(r.entries) <= r.max == max
  {
    DynTable(Evict(d.entries, max), max)
  }

  // ---- Index space: 1..61 predefined, 62.. dynamic --------------------------

  function Lookup(fixed: seq<Header>, d: DynTable, index: nat): Option<Header>
    requires |fixed| == 61
  {
    if 1 <= index <= 61 then Some(fixed[index - 1])
    else if 62 <= index < 62 + |d.entries| then Some(d.entries[index - 62])
    else None
  }

  /** What a search looks for: the whole field, or just its name. */
  datatype Query = Exact(h: Header) | Name(name: seq<byte>) {
    predicate Matches(e: Header) {
      match this
      case Exact(h) => e == h
      case Name(name) => e.name == name
    }
  }

  /** First match at position `i` or later, or -1. */
  function FirstMatch(entries: seq<Header>, q: Query, i: nat): (r: int)
    requires i <= |entries|
    ensures r == -1 || i <= r < |entries|
    ensures r >= 0 ==> q.Matches(entries[r])
    ensures forall k :: i <= k < (if r >= 0 then r else |entries|) ==> !q.Matches(entries[k])
    decreases |entries| - i
  {
    if i == |entries| then -1
    else if q.Matches(entries[i]) then i
    else FirstMatch(entries, q, i + 1)
  }

  function Find(fixed: seq<Header>, d: DynTable, q: Query): (r: int)
    requires |fixed| == 61
  {
    var s := FirstMatch(fixed, q, 0);
    if s >= 0 then s + 1
    else
      var k := FirstMatch(d.entries, q, 0);
      if k >= 0 then k + 62 else -1
  }

  /**
   A search returns the lowest index whose entry, as the decoder resolves it,
   matches; and -1 exactly when no index does.
   */
  lemma FindResolves(fixed: seq<Header>, d: DynTable, q: Query)
    requires |fixed| == 61
    ensures var r := Find(fixed, d, q);
            && (r == -1 || (r >= 1 && Lookup(fixed, d, r).Some? && q.Matches(Lookup(fixed, d, r).value)))
            && (forall i: nat :: Lookup(fixed, d, i).Some? && q.Matches(Lookup(fixed, d, i).value) ==> r != -1 && r <= i)
  {
    var r := Find(fixed, d, q);
    forall i: nat | Lookup(fixed, d, i).Some? && q.Matches(Lookup(fixed, d, i).value)
      ensures r != -1 && r <= i
    {
      if i <= 61 {
        assert q.Matches(fixed[i - 1]);
      } else {
        assert q.Matches(d.entries[i - 62]);
      }
    }
  }

  // ---- Bounds ---------------------------------------------------------------

  /** Strings far below the point where an entry size would wrap. */
  predicate Short(h: Header) {
    |h.name| <= 0x10_0000 && |h.value| <= 0x10_0000
  }

  type ShortHeader = h: Header | Short(h) witness Header([], [])

  predicate AllShort(entries: seq<Header>) {
    forall i :: 0 <= i < |entries| ==> Short(entries[i])
  }

  lemma {:induction false} CountBound(entries: seq<Header>)
    requires AllShort(entries)
    ensures 32 * |entries| <= TotalSize(entries)
  {
    if entries != [] {
      CountBound(entries[..|entries| - 1]);
      assert Short(entries[|entries| - 1]);
    }
  }

  lemma AddShort(d: DynTable, h: Header)
    requires AllShort(d.entries) && Short(h)
    ensures AllShort(Add(d, h).entries)
  {
  }

  // ---- What the sizes stand for ---------------------------------------------

  /** All the names and values of a table, one after the other. */
  function Strings(entries: seq<Header>): seq<byte> {
    if entries == [] then []
    else Strings(entries[..|entries| - 1]) + (entries[|entries| - 1].name + entries[|entries| - 1].value)
  }

  /** The octets of the table, and 32 for each entry (section 4.1 of RFC 7541). */
  function Footprint(entries: seq<Header>): nat {
    |Strings(entries)| + 32 * |entries|
  }

  lemma {:induction false} SizeIsFootprint(entries: seq<Header>)
    requires AllShort(entries)
    ensures TotalSize(entries) == Footprint(entries)
  {
    if entries != [] {
      SizeIsFootprint(entries[..|entries| - 1]);
      assert Short(entries[|entries| - 1]);
    }
  }

  lemma FootprintOfOne(h: Header)
    ensures Footprint([h]) == |h.name| + |h.value| + 32
  {
    assert [h][..0] == [];
    assert Strings([h]) == Strings([]) + (h.name + h.value);
  }

  /**
   An insertion empties the table exactly when the entry alone is too large for it; otherwise
   it leaves the longest run of newest entries that fits, the new one first.
   */
  lemma AddExact(d: DynTable, h: Header, k: nat)
    requires AllShort(d.entries) && Short(h) && 1 <= k <= 1 + |d.entries|
    ensures var all, r := [h] + d.entries, Add(d, h).entries;
            && r == all[..|r|]
            && (r == [] <==> |h.name| + |h.value| + 32 > d.max)
            && (k <= |r| <==> Footprint(all[..k]) <= d.max)
  {
    hide Strings, Evict;
    var all, r := [h] + d.entries, Add(d, h).entries;
    assert all[..k] == [h] + d.entries[..k - 1];
    SizeIsFootprint(all[..k]);
    TotalSizeCons(h, d.entries[..k - 1]);
    FootprintOfOne(h);
    SizeIsFootprint([h]);
    TotalSizeCons(h, []);
    assert [h] + [] == [h];
    if EntrySize(h) <= d.max {
      EvictKeepsLongest(d.entries, d.max - EntrySize(h), k - 1);
    }
  }

  /** A size change leaves the longest run of newest entries that fits. */
  lemma SetMaxExact(d: DynTable, max: uint32, k: nat)
    requires AllShort(d.entries) && k <= |d.entries|
    ensures var r := SetMax(d, max).entries;
            r == d.entries[..|r|] && (k <= |r| <==> Footprint(d.entries[..k]) <= max)
  {
    hide Strings, Evict;
    SizeIsFootprint(d.entries[..k]);
    EvictKeepsLongest(d.entries, max, k);
  }

  /** Index 62 is the newest entry, and an insertion moves every other that stays one up. */
  lemma AddMovesUp(fixed: seq<Header>, d: DynTable, h: Header, index: nat)
    requires |fixed| == 61 && Add(d, h).entries != []
    ensures Lookup(fixed, Add(d, h), 62) == Some(h)
    ensures 62 <= index < 61 + |Add(d, h).entries| ==> Lookup(fixed, Add(d, h), index + 1) == Lookup(fixed, d, index)
    ensures index <= 61 ==> Lookup(fixed, Add(d, h), index) == Lookup(fixed, d, index)
  {
    hide TotalSize;
  }
}
