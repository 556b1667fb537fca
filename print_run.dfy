/**
 * The print run of the export view: the selected card types are grouped
 * by card size, each card of a type is repeated as many times as its
 * quantity says, and every group becomes one duplex section of the PDF.
 */
module PrintRun {
  import opened Wrappers
  import opened Paths
  import opened Library
  import opened Imposition

  /** The key of `grouped_cards`: a card size in millimetres. */
  datatype Dims = Dims(w: Mm, h: Mm)

  function DimsOf(t: TypeEntry): Dims
  {
    Dims(t.widthMm, t.heightMm)
  }

  function SizeOf(e: CardEntry): Dims
  {
    Dims(e.width, e.height)
  }

  // ---------------------------------------------------------------------------
  // One card type's copies.

  /** `n` copies of `e`; none when `n` is zero or negative, as `range(n)` is then empty. */
  function Copies(e: CardEntry, n: int): seq<CardEntry>
    decreases n
  {
    if n <= 0 then [] else Copies(e, n - 1) + [e]
  }

  /** The printed copy of a listed card. */
  function CopyOf(c: CardInfo, back: Option<FilePath>, t: TypeEntry): CardEntry
  {
    CardEntry(c.path, back, t.widthMm, t.heightMm)
  }

  /** The copies of a card type's listed cards, card after card. */
  function Expand(cards: seq<CardInfo>, back: Option<FilePath>, t: TypeEntry): seq<CardEntry>
    decreases |cards|
  {
    if cards == [] then []
    else
      var c := cards[|cards| - 1];
      Expand(cards[..|cards| - 1], back, t) + Copies(CopyOf(c, back, t), c.count)
  }

  /** How many copies a quantity asks for. */
  function Quantity(n: int): nat
  {
    if n <= 0 then 0 else n
  }

  /** The sum of the quantities of the listed cards. */
  function Demand(cards: seq<CardInfo>): nat
    decreases |cards|
  {
    if cards == [] then 0 else Demand(cards[..|cards| - 1]) + Quantity(cards[|cards| - 1].count)
  }

  lemma {:induction false} CopiesFacts(e: CardEntry, n: int)
    ensures |Copies(e, n)| == Quantity(n)
    ensures forall x :: x in Copies(e, n) ==> x == e
    decreases n
  {
    if n > 0 {
      CopiesFacts(e, n - 1);
    }
  }

  /**
   * Every copy of a card type has the type's size and back, and shows
   * the front of one of its listed cards; there are as many copies as the
   * quantities add up to.
   */
  lemma {:induction false} ExpandFacts(cards: seq<CardInfo>, back: Option<FilePath>, t: TypeEntry)
    ensures |Expand(cards, back, t)| == Demand(cards)
    ensures forall e :: e in Expand(cards, back, t) ==>
      SizeOf(e) == DimsOf(t) && e.back == back && exists c :: c in cards && e.front == c.path
    decreases |cards|
  {
    if cards != [] {
      var pre, c := cards[..|cards| - 1], cards[|cards| - 1];
      ExpandFacts(pre, back, t);
      CopiesFacts(CopyOf(c, back, t), c.count);
      forall e | e in Expand(cards, back, t)
        ensures SizeOf(e) == DimsOf(t) && e.back == back && exists c :: c in cards && e.front == c.path
      {
        if e in Expand(pre, back, t) {
          var d :| d in pre && e.front == d.path;
          assert d in cards;
        } else {
          assert e == CopyOf(c, back, t);
        }
      }
    }
  }

  // ---------------------------------------------------------------------------
  // Grouping by size, over the selected types and their runs of copies.

  /** The sizes of the selected types, each once, in the order they first occur. */
  function Keys(sel: seq<TypeEntry>): seq<Dims>
    decreases |sel|
  {
    if sel == [] then []
    else
      var k := DimsOf(sel[|sel| - 1]);
      Keys(sel[..|sel| - 1]) + (if k in Keys(sel[..|sel| - 1]) then [] else [k])
  }

  /** The copies grouped under size `k`: the runs of the types of that size, in selection order. */
  function Group(sel: seq<TypeEntry>, runs: seq<seq<CardEntry>>, k: Dims): seq<CardEntry>
    requires |runs| == |sel|
    decreases |sel|
  {
    if sel == [] then []
    else
      Group(sel[..|sel| - 1], runs[..|runs| - 1], k) + (if DimsOf(sel[|sel| - 1]) == k then runs[|runs| - 1] else [])
  }

  /** `grouped_cards` once every selected type has been added. */
  function Grouped(sel: seq<TypeEntry>, runs: seq<seq<CardEntry>>): map<Dims, seq<CardEntry>>
    requires |runs| == |sel|
  {
    map k | k in Keys(sel) :: Group(sel, runs, k)
  }

  /** `total_count`: every copy appended. */
  function Total(runs: seq<seq<CardEntry>>): nat
    decreases |runs|
  {
    if runs == [] then 0 else Total(runs[..|runs| - 1]) + |runs[|runs| - 1]|
  }

  /** The sum of the sizes of the groups listed in `keys`. */
  function GroupSizes(sel: seq<TypeEntry>, runs: seq<seq<CardEntry>>, keys: seq<Dims>): nat
    requires |runs| == |sel|
    decreases |keys|
  {
    if keys == [] then 0 else GroupSizes(sel, runs, keys[..|keys| - 1]) + |Group(sel, runs, keys[|keys| - 1])|
  }

  predicate Distinct<T(==)>(s: seq<T>)
  {
    forall i, j :: 0 <= i < j < |s| ==> s[i] != s[j]
  }

  /** The group keys are distinct. */
  lemma {:induction false} KeysDistinct(sel: seq<TypeEntry>)
    ensures Distinct(Keys(sel))
    decreases |sel|
  {
    if sel != [] {
      KeysDistinct(sel[..|sel| - 1]);
    }
  }

  /** The group keys are exactly the sizes of the selected types. */
  lemma {:induction false} KeysCover(sel: seq<TypeEntry>)
    ensures forall k :: k in Keys(sel) <==> exists i :: 0 <= i < |sel| && DimsOf(sel[i]) == k
    decreases |sel|
  {
    if sel != [] {
      var pre := sel[..|sel| - 1];
      KeysCover(pre);
      forall k ensures k in Keys(sel) <==> exists i :: 0 <= i < |sel| && DimsOf(sel[i]) == k {
        if k in Keys(pre) {
          var i :| 0 <= i < |pre| && DimsOf(pre[i]) == k;
          assert sel[i] == pre[i];
        }
        if exists i :: 0 <= i < |sel| && DimsOf(sel[i]) == k {
          var i :| 0 <= i < |sel| && DimsOf(sel[i]) == k;
          if i < |pre| {
            assert pre[i] == sel[i];
          }
        }
      }
    }
  }

  /** A size no selected type has gets no copy. */
  lemma {:induction false} GroupOfAbsent(sel: seq<TypeEntry>, runs: seq<seq<CardEntry>>, k: Dims)
    requires |runs| == |sel| && k !in Keys(sel)
    ensures Group(sel, runs, k) == []
    decreases |sel|
  {
    if sel != [] {
      GroupOfAbsent(sel[..|sel| - 1], runs[..|runs| - 1], k);
    }
  }

  /** Runs whose copies have their type's size. */
  predicate Sized(sel: seq<TypeEntry>, runs: seq<seq<CardEntry>>)
  {
    |runs| == |sel| && forall i, e :: 0 <= i < |sel| && e in runs[i] ==> SizeOf(e) == DimsOf(sel[i])
  }

  /** Every copy in the group of size `k` has size `k`. */
  lemma {:induction false} GroupSized(sel: seq<TypeEntry>, runs: seq<seq<CardEntry>>, k: Dims)
    requires Sized(sel, runs)
    ensures forall e :: e in Group(sel, runs, k) ==> SizeOf(e) == k
    decreases |sel|
  {
    if sel != [] {
      var n := |sel| - 1;
      assert Sized(sel[..n], runs[..n]) by {
        forall i, e | 0 <= i < n && e in runs[..n][i] ensures SizeOf(e) == DimsOf(sel[..n][i]) {
          assert runs[..n][i] == runs[i] && sel[..n][i] == sel[i];
        }
      }
      GroupSized(sel[..n], runs[..n], k);
    }
  }

  lemma KeysSnoc(sel: seq<TypeEntry>, t: TypeEntry)
    ensures Keys(sel + [t]) == Keys(sel) + (if DimsOf(t) in Keys(sel) then [] else [DimsOf(t)])
  {
    assert (sel + [t])[..|sel|] == sel;
  }

  lemma GroupSnoc(sel: seq<TypeEntry>, runs: seq<seq<CardEntry>>, t: TypeEntry, run: seq<CardEntry>, k: Dims)
    requires |runs| == |sel|
    ensures Group(sel + [t], runs + [run], k) == Group(sel, runs, k) + (if DimsOf(t) == k then run else [])
  {
    assert (sel + [t])[..|sel|] == sel;
    assert (runs + [run])[..|runs|] == runs;
  }

  /** Adding one more type: its run goes to the end of its size's group, new or not. */
  lemma GroupedStep(sel: seq<TypeEntry>, runs: seq<seq<CardEntry>>, t: TypeEntry, run: seq<CardEntry>)
    requires |runs| == |sel|
    ensures var key := DimsOf(t);
      var g := Grouped(sel, runs);
      Grouped(sel + [t], runs + [run]) == g[key := (if key in g then g[key] else []) + run]
  {
    var key := DimsOf(t);
    var g := Grouped(sel, runs);
    var lhs := Grouped(sel + [t], runs + [run]);
    var rhs := g[key := (if key in g then g[key] else []) + run];
    KeysSnoc(sel, t);
    if key !in Keys(sel) {
      GroupOfAbsent(sel, runs, key);
    }
    assert lhs.Keys == rhs.Keys;
    forall k | k in lhs ensures lhs[k] == rhs[k] {
      GroupSnoc(sel, runs, t, run, k);
    }
  }

  /** Adding a key that is not yet listed adds its group's size. */
  lemma {:induction false} GroupSizesSnoc(sel: seq<TypeEntry>, runs: seq<seq<CardEntry>>, keys: seq<Dims>, k: Dims)
    requires |runs| == |sel|
    ensures GroupSizes(sel, runs, keys + [k]) == GroupSizes(sel, runs, keys) + |Group(sel, runs, k)|
  {
    assert (keys + [k])[..|keys|] == keys;
  }

  /**
   * Over keys that do not include the newest type's size, the group
   * sizes are those before that type was added.
   */
  lemma {:induction false} GroupSizesOther(sel: seq<TypeEntry>, runs: seq<seq<CardEntry>>, t: TypeEntry, run: seq<CardEntry>,
                                           keys: seq<Dims>)
    requires |runs| == |sel| && DimsOf(t) !in keys
    ensures GroupSizes(sel + [t], runs + [run], keys) == GroupSizes(sel, runs, keys)
    decreases |keys|
  {
    if keys != [] {
      GroupSizesOther(sel, runs, t, run, keys[..|keys| - 1]);
      GroupSnoc(sel, runs, t, run, keys[|keys| - 1]);
    }
  }

  /** Over distinct keys holding the newest type's size once, the group sizes grow by that type's run. */
  lemma {:induction false} GroupSizesWith(sel: seq<TypeEntry>, runs: seq<seq<CardEntry>>, t: TypeEntry, run: seq<CardEntry>,
                                          keys: seq<Dims>)
    requires |runs| == |sel| && Distinct(keys) && DimsOf(t) in keys
    ensures GroupSizes(sel + [t], runs + [run], keys) == GroupSizes(sel, runs, keys) + |run|
    decreases |keys|
  {
    var pre, last := keys[..|keys| - 1], keys[|keys| - 1];
    assert Distinct(pre);
    GroupSnoc(sel, runs, t, run, last);
    if last == DimsOf(t) {
      assert DimsOf(t) !in pre;
      GroupSizesOther(sel, runs, t, run, pre);
    } else {
      GroupSizesWith(sel, runs, t, run, pre);
    }
  }

  /**
   * Every copy lands in exactly one group: the sizes of the groups add up
   * to `total_count`.
   */
  lemma {:induction false} GroupsPartitionTotal(sel: seq<TypeEntry>, runs: seq<seq<CardEntry>>)
    requires |runs| == |sel|
    ensures GroupSizes(sel, runs, Keys(sel)) == Total(runs)
    decreases |sel|
  {
    if sel != [] {
      var n := |sel| - 1;
      var pre, t, preRuns, run := sel[..n], sel[n], runs[..n], runs[n];
      assert sel == pre + [t] && runs == preRuns + [run];
      assert Total(runs) == Total(preRuns) + |run|;
      GroupsPartitionTotal(pre, preRuns);
      KeysDistinct(pre);
      KeysSnoc(pre, t);
      var key := DimsOf(t);
      if key in Keys(pre) {
        assert Keys(sel) == Keys(pre);
        GroupSizesWith(pre, preRuns, t, run, Keys(pre));
      } else {
        assert Keys(sel) == Keys(pre) + [key];
        GroupOfAbsent(pre, preRuns, key);
        GroupSnoc(pre, preRuns, t, run, key);
        GroupSizesOther(pre, preRuns, t, run, Keys(pre));
        GroupSizesSnoc(sel, runs, Keys(pre), key);
      }
    }
  }

  // ---------------------------------------------------------------------------
  // The runs of the selected types, in terms of their listings.

  /** The runs of copies of the selected types, from each type's listing and back image. */
  function Runs(sel: seq<TypeEntry>, ls: seq<seq<CardInfo>>, bs: seq<Option<FilePath>>): (r: seq<seq<CardEntry>>)
    requires |ls| == |sel| && |bs| == |sel|
    ensures |r| == |sel|
    decreases |sel|
  {
    if sel == [] then []
    else
      var n := |sel| - 1;
      Runs(sel[..n], ls[..n], bs[..n]) + [Expand(ls[n], bs[n], sel[n])]
  }

  lemma {:induction false} RunsAt(sel: seq<TypeEntry>, ls: seq<seq<CardInfo>>, bs: seq<Option<FilePath>>, i: nat)
    requires |ls| == |sel| && |bs| == |sel| && i < |sel|
    ensures Runs(sel, ls, bs)[i] == Expand(ls[i], bs[i], sel[i])
    decreases |sel|
  {
    var n := |sel| - 1;
    if i < n {
      RunsAt(sel[..n], ls[..n], bs[..n], i);
    }
  }

  lemma RunsSnoc(sel: seq<TypeEntry>, ls: seq<seq<CardInfo>>, bs: seq<Option<FilePath>>,
                 t: TypeEntry, l: seq<CardInfo>, b: Option<FilePath>)
    requires |ls| == |sel| && |bs| == |sel|
    ensures Runs(sel + [t], ls + [l], bs + [b]) == Runs(sel, ls, bs) + [Expand(l, b, t)]
  {
    assert (sel + [t])[..|sel|] == sel;
    assert (ls + [l])[..|sel|] == ls;
    assert (bs + [b])[..|sel|] == bs;
  }

  /** The runs have their type's size. */
  lemma RunsSized(sel: seq<TypeEntry>, ls: seq<seq<CardInfo>>, bs: seq<Option<FilePath>>)
    requires |ls| == |sel| && |bs| == |sel|
    ensures Sized(sel, Runs(sel, ls, bs))
  {
    var runs := Runs(sel, ls, bs);
    forall i, e | 0 <= i < |sel| && e in runs[i] ensures SizeOf(e) == DimsOf(sel[i]) {
      RunsAt(sel, ls, bs, i);
      ExpandFacts(ls[i], bs[i], sel[i]);
    }
  }

  /** The quantities of the listed cards, added up over the listings. */
  function SumDemand(ls: seq<seq<CardInfo>>): nat
    decreases |ls|
  {
    if ls == [] then 0 else SumDemand(ls[..|ls| - 1]) + Demand(ls[|ls| - 1])
  }

  lemma {:induction false} RunsTotal(sel: seq<TypeEntry>, ls: seq<seq<CardInfo>>, bs: seq<Option<FilePath>>)
    requires |ls| == |sel| && |bs| == |sel|
    ensures Total(Runs(sel, ls, bs)) == SumDemand(ls)
    decreases |sel|
  {
    if sel != [] {
      var n := |sel| - 1;
      RunsTotal(sel[..n], ls[..n], bs[..n]);
      ExpandFacts(ls[n], bs[n], sel[n]);
      var runs := Runs(sel, ls, bs);
      assert runs[..n] == Runs(sel[..n], ls[..n], bs[..n]);
    }
  }

  // ---------------------------------------------------------------------------
  // The export itself.

  /** The run of copies one selected type contributes, as the library lists it now. */
  ghost function DeckRun(gm: GameManager, game: string, t: TypeEntry): seq<CardEntry>
    reads gm
  {
    Expand(gm.Listing(game, t.folder), gm.BackImagePath(game, t.folder), t)
  }

  /** What `get_cards_by_type` returns for each selected type. */
  ghost function Listings(gm: GameManager, game: string, sel: seq<TypeEntry>): (r: seq<seq<CardInfo>>)
    reads gm
    ensures |r| == |sel|
    decreases |sel|
  {
    if sel == [] then [] else Listings(gm, game, sel[..|sel| - 1]) + [gm.Listing(game, sel[|sel| - 1].folder)]
  }

  /** What `get_back_image_path` returns for each selected type. */
  function Backs(gm: GameManager, game: string, sel: seq<TypeEntry>): (r: seq<Option<FilePath>>)
    reads gm
    ensures |r| == |sel|
    decreases |sel|
  {
    if sel == [] then [] else Backs(gm, game, sel[..|sel| - 1]) + [gm.BackImagePath(game, sel[|sel| - 1].folder)]
  }

  ghost function DeckRuns(gm: GameManager, game: string, sel: seq<TypeEntry>): (r: seq<seq<CardEntry>>)
    reads gm
    ensures |r| == |sel|
  {
    Runs(sel, Listings(gm, game, sel), Backs(gm, game, sel))
  }

  /** One more selected type adds its run at the end. */
  lemma DeckRunsSnoc(gm: GameManager, game: string, sel: seq<TypeEntry>, t: TypeEntry)
    ensures DeckRuns(gm, game, sel + [t]) == DeckRuns(gm, game, sel) + [DeckRun(gm, game, t)]
  {
    var sel' := sel + [t];
    assert sel'[..|sel|] == sel;
    assert Listings(gm, game, sel') == Listings(gm, game, sel) + [gm.Listing(game, t.folder)];
    assert Backs(gm, game, sel') == Backs(gm, game, sel) + [gm.BackImagePath(game, t.folder)];
    RunsSnoc(sel, Listings(gm, game, sel), Backs(gm, game, sel), t, gm.Listing(game, t.folder), gm.BackImagePath(game, t.folder));
  }

  /** The runs the library gives have their type's size. */
  lemma DeckRunsSized(gm: GameManager, game: string, sel: seq<TypeEntry>)
    ensures Sized(sel, DeckRuns(gm, game, sel))
  {
    RunsSized(sel, Listings(gm, game, sel), Backs(gm, game, sel));
  }

  /** Every copy in the export's group of size `k` has size `k`. */
  lemma ExportGroupsSized(gm: GameManager, game: string, sel: seq<TypeEntry>)
    ensures forall k, e :: k in Grouped(sel, DeckRuns(gm, game, sel)) && e in Grouped(sel, DeckRuns(gm, game, sel))[k] ==>
      SizeOf(e) == k
  {
    var runs := DeckRuns(gm, game, sel);
    DeckRunsSized(gm, game, sel);
    forall k | k in Grouped(sel, runs) ensures forall e :: e in Grouped(sel, runs)[k] ==> SizeOf(e) == k {
      GroupSized(sel, runs, k);
    }
  }

  /** The quantities of the listed cards of the selected types, added up. */
  ghost function SelectedDemand(gm: GameManager, game: string, sel: seq<TypeEntry>): nat
    reads gm
  {
    SumDemand(Listings(gm, game, sel))
  }

  /** `total_count` is the sum of the quantities (those below 1 counting as 0) over the selected types. */
  lemma TotalIsDemand(gm: GameManager, game: string, sel: seq<TypeEntry>)
    ensures Total(DeckRuns(gm, game, sel)) == SelectedDemand(gm, game, sel)
  {
    RunsTotal(sel, Listings(gm, game, sel), Backs(gm, game, sel));
  }

  /** Appends the copies of a type's cards to its size's list, counting them: the two inner loops of the export. */
  method AppendCopies(lst: seq<CardEntry>, cards: seq<CardInfo>, back: Option<FilePath>, t: TypeEntry)
    returns (out: seq<CardEntry>, added: nat)
    ensures out == lst + Expand(cards, back, t)
    ensures added == |Expand(cards, back, t)|
  {
    out, added := lst, 0;
    for j := 0 to |cards|
      invariant out == lst + Expand(cards[..j], back, t)
      invariant added == |Expand(cards[..j], back, t)|
    {
      var c := cards[j];
      var e := CopyOf(c, back, t);
      var qty := c.count;
      var k := 0;
      while k < qty
        invariant 0 <= k <= Quantity(qty)
        invariant out == lst + Expand(cards[..j], back, t) + Copies(e, k)
        invariant added == |Expand(cards[..j], back, t)| + |Copies(e, k)|
      {
        out := out + [e];
        added := added + 1;
        k := k + 1;
      }
      if qty <= 0 {
        assert Copies(e, qty) == [];
      }
      assert Copies(e, k) == Copies(e, qty);
      assert cards[..j + 1][..j] == cards[..j];
    }
    assert cards[..|cards|] == cards;
  }

  /** What adding the `i`-th selected type does to the keys, the groups and the total. */
  lemma CollectStep(gm: GameManager, game: string, sel: seq<TypeEntry>, i: nat)
    requires i < |sel|
    ensures var pre, t := sel[..i], sel[i];
      var run := DeckRun(gm, game, t);
      var g := Grouped(pre, DeckRuns(gm, game, pre));
      var key := DimsOf(t);
      Keys(sel[..i + 1]) == Keys(pre) + (if key in g then [] else [key]) &&
      Grouped(sel[..i + 1], DeckRuns(gm, game, sel[..i + 1])) == g[key := (if key in g then g[key] else []) + run] &&
      Total(DeckRuns(gm, game, sel[..i + 1])) == Total(DeckRuns(gm, game, pre)) + |run|
  {
    var pre, t := sel[..i], sel[i];
    assert sel[..i + 1] == pre + [t];
    assert (pre + [t])[..i] == pre;
    var runs := DeckRuns(gm, game, pre);
    DeckRunsSnoc(gm, game, pre, t);
    assert (runs + [DeckRun(gm, game, t)])[..|runs|] == runs;
    KeysSnoc(pre, t);
    GroupedStep(pre, runs, t, DeckRun(gm, game, t));
  }

  /** One pass of the grouping loop: the copies of type `t` go to the list of its size, created if needed. */
  method AddType(gm: GameManager, game: string, t: TypeEntry,
                 order: seq<Dims>, grouped: map<Dims, seq<CardEntry>>, total: nat)
    returns (order': seq<Dims>, grouped': map<Dims, seq<CardEntry>>, total': nat)
    ensures var key := DimsOf(t);
      order' == order + (if key in grouped then [] else [key]) &&
      grouped' == grouped[key := (if key in grouped then grouped[key] else []) + DeckRun(gm, game, t)] &&
      total' == total + |DeckRun(gm, game, t)|
  {
    var key := DimsOf(t);
    order', grouped' := order, grouped;
    if key !in grouped' {
      grouped' := grouped'[key := []];
      order' := order' + [key];
    }
    var cards := gm.GetCardsByType(game, t.folder);
    var back := gm.BackImagePath(game, t.folder);
    var lst, added := AppendCopies(grouped'[key], cards, back, t);
    grouped' := grouped'[key := lst];
    total' := total + added;
  }

  /** The grouping loop of the export: group keys in insertion order, the groups and `total_count`. */
  method Collect(gm: GameManager, game: string, selected: seq<TypeEntry>)
    returns (order: seq<Dims>, grouped: map<Dims, seq<CardEntry>>, total: nat)
    ensures order == Keys(selected)
    ensures grouped == Grouped(selected, DeckRuns(gm, game, selected))
    ensures total == Total(DeckRuns(gm, game, selected))
  {
    order, grouped, total := [], map[], 0;
    for i := 0 to |selected|
      invariant order == Keys(selected[..i])
      invariant grouped == Grouped(selected[..i], DeckRuns(gm, game, selected[..i]))
      invariant total == Total(DeckRuns(gm, game, selected[..i]))
    {
      CollectStep(gm, game, selected, i);
      order, grouped, total := AddType(gm, game, selected[i], order, grouped, total);
    }
    assert selected[..|selected|] == selected;
  }

  /** `os.path.exists` over the library's files as they are now. */
  function OnDiskIn(folders: map<FolderId, set<string>>): FilePath -> bool
  {
    (p: FilePath) => p.Dir() in folders && p.file in folders[p.Dir()]
  }

  /** The pages of the groups of `keys`, one section after another. */
  function Sections(s: Sheet, keys: seq<Dims>, grouped: map<Dims, seq<CardEntry>>,
                    present: FilePath -> bool, loads: FilePath -> bool): seq<Page>
    requires SheetOk(s)
    requires forall k :: k in keys ==> k in grouped
    decreases |keys|
  {
    if keys == [] then []
    else Sections(s, keys[..|keys| - 1], grouped, present, loads) + Section(s, grouped[keys[|keys| - 1]], present, loads)
  }

  lemma PagesAssoc(a: seq<Page>, b: seq<Page>, c: seq<Page>)
    ensures (a + b) + c == a + (b + c)
  {
  }

  lemma SectionsStep(s: Sheet, keys: seq<Dims>, i: nat, grouped: map<Dims, seq<CardEntry>>,
                     present: FilePath -> bool, loads: FilePath -> bool)
    requires SheetOk(s) && i < |keys|
    requires forall k :: k in keys ==> k in grouped
    ensures Sections(s, keys[..i + 1], grouped, present, loads)
         == Sections(s, keys[..i], grouped, present, loads) + Section(s, grouped[keys[i]], present, loads)
  {
    assert keys[..i + 1][..i] == keys[..i];
  }

  /** `for dim, lst in grouped_cards.items(): pdf.add_deck_section(lst)`. */
  method Assemble(pdf: PdfGenerator, order: seq<Dims>, grouped: map<Dims, seq<CardEntry>>,
                  present: FilePath -> bool, loads: FilePath -> bool)
    requires pdf.Valid()
    requires forall k :: k in order ==> k in grouped
    modifies pdf
    ensures pdf.pages == old(pdf.pages) + Sections(pdf.SheetOf(), order, grouped, present, loads)
  {
    for i := 0 to |order|
      invariant pdf.pages == old(pdf.pages) + Sections(pdf.SheetOf(), order[..i], grouped, present, loads)
    {
      pdf.AddDeckSection(grouped[order[i]], present, loads);
      SectionsStep(pdf.SheetOf(), order, i, grouped, present, loads);
      PagesAssoc(old(pdf.pages), Sections(pdf.SheetOf(), order[..i], grouped, present, loads),
                 Section(pdf.SheetOf(), grouped[order[i]], present, loads));
    }
    assert order[..|order|] == order;
  }

  datatype Outcome =
    | NoDecks           // "Aucun deck configuré."
    | NothingSelected   // "Sélectionnez au moins un deck."
    | Generated(total: nat)

  /**
   * The export button: with types configured and some selected, a fresh
   * generator receives one section per card size, in the order the sizes
   * first occur in the selection. Which images load is `loads`.
   */
  method Render(gm: GameManager, game: string, selected: seq<TypeEntry>, loads: FilePath -> bool)
    returns (outcome: Outcome, pdf: PdfGenerator?)
    requires forall i :: 0 <= i < |selected| ==> selected[i] in gm.CardTypesOf(game).Values
    ensures gm.CardTypesOf(game) == map[] ==> outcome == NoDecks && pdf == null
    ensures gm.CardTypesOf(game) != map[] && selected == [] ==> outcome == NothingSelected && pdf == null
    ensures gm.CardTypesOf(game) != map[] && selected != [] ==>
      outcome == Generated(Total(DeckRuns(gm, game, selected))) && pdf != null && fresh(pdf) &&
      pdf.SheetOf() == Sheet(210, 297, 10) &&
      pdf.pages == Sections(pdf.SheetOf(), Keys(selected), Grouped(selected, DeckRuns(gm, game, selected)),
                            OnDiskIn(gm.folders), loads)
  {
    if gm.CardTypesOf(game) == map[] {
      return NoDecks, null;
    }
    if selected == [] {
      return NothingSelected, null;
    }
    var order, grouped, total := Collect(gm, game, selected);
    pdf := new PdfGenerator();
    Assemble(pdf, order, grouped, OnDiskIn(gm.folders), loads);
    return Generated(total), pdf;
  }
}
