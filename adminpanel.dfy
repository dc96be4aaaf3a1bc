/**
 * The owner's control panel of admin.py: the paginated view of the banned
 * word list and its navigation keyboard, bulk entry of comma-separated items,
 * and the cut-off of a long whitelist view.
 */
module AdminPanel {
  import opened Wrappers
  import opened Text
  import opened Database

  const ItemsPerPage: nat := 50

  /** `math.ceil(n / 50)` */
  function TotalPages(n: nat): (t: nat)
    ensures t * ItemsPerPage >= n
    ensures t > 0 ==> (t - 1) * ItemsPerPage < n
    ensures t == 0 <==> n == 0
  {
    (n + ItemsPerPage - 1) / ItemsPerPage
  }

  datatype PageArg = PageNumber(page: int) | NotANumber

  /**
   * The page named by a `show_badwords[:n]` callback: no ':' part means page
   * 0; a part that is not a number makes `int()` raise, which the handler
   * does not catch.
   */
  function ParsePage(data: string): (r: PageArg)
    ensures |SplitOn(data, ':')| < 2 ==> r == PageNumber(0)
  {
    var parts := SplitOn(data, ':');
    if |parts| < 2 then PageNumber(0)
    else match ParseInt(parts[1])
      case Some(n) => PageNumber(n)
      case None => NotANumber
  }

  /** The page actually shown: past the end means the last page, below zero means the first. */
  function ClampPage(page: int, totalPages: nat): int {
    var p := if page >= totalPages then totalPages - 1 else page;
    if p < 0 then 0 else p
  }

  /** Clamping lands on a real page, and leaves a real page alone. */
  lemma {:induction false} ClampPageSpec(page: int, totalPages: nat)
    requires totalPages > 0
    ensures 0 <= ClampPage(page, totalPages) < totalPages
    ensures 0 <= page < totalPages ==> ClampPage(page, totalPages) == page
    ensures page >= totalPages ==> ClampPage(page, totalPages) == totalPages - 1
    ensures page < 0 ==> ClampPage(page, totalPages) == 0
  {
  }

  /** An offset into a list of `n` items, clipped at its end as Python's slices clip. */
  function Clip(n: nat, offset: nat): (c: nat)
    ensures c <= n
  {
    if offset <= n then offset else n
  }

  /** `items[page*50 : page*50+50]` */
  function PageSlice(items: seq<string>, page: nat): seq<string> {
    items[Clip(|items|, page * ItemsPerPage)..Clip(|items|, page * ItemsPerPage + ItemsPerPage)]
  }

  /** A page of a non-empty list that exists holds between 1 and 50 items, which are the items at its offsets. */
  lemma {:induction false} PageSliceSpec(items: seq<string>, page: nat)
    requires page < TotalPages(|items|)
    ensures 1 <= |PageSlice(items, page)| <= ItemsPerPage
    ensures forall k :: 0 <= k < |PageSlice(items, page)| ==> PageSlice(items, page)[k] == items[page * ItemsPerPage + k]
  {
  }

  /** The first `k` pages, one after another. */
  function FirstPages(items: seq<string>, k: nat): seq<string> {
    if k == 0 then [] else FirstPages(items, k - 1) + PageSlice(items, k - 1)
  }

  /** The first `k` pages are exactly the first `50 k` items. */
  lemma {:induction false} FirstPagesPrefix(items: seq<string>, k: nat)
    ensures FirstPages(items, k) == items[..Clip(|items|, k * ItemsPerPage)]
  {
    if k > 0 {
      FirstPagesPrefix(items, k - 1);
      var a := Clip(|items|, (k - 1) * ItemsPerPage);
      var b := Clip(|items|, k * ItemsPerPage);
      assert (k - 1) * ItemsPerPage + ItemsPerPage == k * ItemsPerPage;
      assert items[..b] == items[..a] + items[a..b];
    }
  }

  /** The pages partition the list: read in order, they give back every item exactly once. */
  lemma {:induction false} PagesPartition(items: seq<string>)
    ensures FirstPages(items, TotalPages(|items|)) == items
  {
    FirstPagesPrefix(items, TotalPages(|items|));
    assert items[..|items|] == items;
  }

  // ---------------------------------------------------------------------
  // The navigation keyboard

  datatype Action = ShowPage(page: int) | Ignore | AddBadword | DelBadword | AskClearBadwords | NavMain

  datatype Label = PrevArrow | NextArrow | Dot | PageOf(page: int, total: int) | ShowList | AddLabel | DelLabel | ClearLabel | BackLabel

  datatype Button = Button(face: Label, action: Action)

  /** The three rows every banned-word keyboard ends with. */
  const FixedRows: seq<seq<Button>> := [
    [Button(AddLabel, AddBadword), Button(DelLabel, DelBadword)],
    [Button(ClearLabel, AskClearBadwords)],
    [Button(BackLabel, NavMain)]
  ]

  /**
   * `badwords_kb`: with several pages, a navigation row (a back arrow or a
   * dot, the page counter, a forward arrow or a dot); with one page or none,
   * a single button that shows page 0. The add, clear and back rows follow.
   */
  method BadwordsKb(page: int, totalPages: int) returns (kb: seq<seq<Button>>)
    ensures |kb| == 4
    ensures kb[1..] == FixedRows
    ensures totalPages <= 1 ==> kb[0] == [Button(ShowList, ShowPage(0))]
    ensures totalPages > 1 ==>
      |kb[0]| == 3
      && kb[0][0] == (if page > 0 then Button(PrevArrow, ShowPage(page - 1)) else Button(Dot, Ignore))
      && kb[0][1] == Button(PageOf(page + 1, totalPages), Ignore)
      && kb[0][2] == (if page < totalPages - 1 then Button(NextArrow, ShowPage(page + 1)) else Button(Dot, Ignore))
  {
    kb := [];
    if totalPages > 1 {
      var navRow: seq<Button> := [];
      if page > 0 {
        navRow := navRow + [Button(PrevArrow, ShowPage(page - 1))];
      } else {
        navRow := navRow + [Button(Dot, Ignore)];
      }
      navRow := navRow + [Button(PageOf(page + 1, totalPages), Ignore)];
      if page < totalPages - 1 {
        navRow := navRow + [Button(NextArrow, ShowPage(page + 1))];
      } else {
        navRow := navRow + [Button(Dot, Ignore)];
      }
      kb := kb + [navRow];
    } else {
      kb := kb + [[Button(ShowList, ShowPage(0))]];
    }
    kb := kb + [[Button(AddLabel, AddBadword), Button(DelLabel, DelBadword)]];
    kb := kb + [[Button(ClearLabel, AskClearBadwords)]];
    kb := kb + [[Button(BackLabel, NavMain)]];
  }

  /** Every page a keyboard for a real page links to is a real page, and it links only to the neighbours. */
  method NavigationStaysInRange(page: int, totalPages: int) returns (kb: seq<seq<Button>>)
    requires 0 <= page < totalPages
    ensures |kb| == 4
    ensures forall r, c :: 0 <= r < |kb| && 0 <= c < |kb[r]| && kb[r][c].action.ShowPage? ==>
      0 <= kb[r][c].action.page < totalPages
      && (totalPages > 1 ==> kb[r][c].action.page == page - 1 || kb[r][c].action.page == page + 1)
    ensures (exists c :: 0 <= c < |kb[0]| && kb[0][c].action == ShowPage(page - 1)) <==> totalPages > 1 && page > 0
    ensures (exists c :: 0 <= c < |kb[0]| && kb[0][c].action == ShowPage(page + 1)) <==> totalPages > 1 && page < totalPages - 1
  {
    kb := BadwordsKb(page, totalPages);
    assert forall r, c :: 1 <= r < |kb| && 0 <= c < |kb[r]| ==> kb[r][c] == FixedRows[r - 1][c];
  }

  // ---------------------------------------------------------------------
  // The paginated view

  datatype BadwordsView = EmptyList | PageView(page: nat, totalPages: nat, totalItems: nat, shown: seq<string>)

  /** `show_bw` once the page number is known: the view and the page and count its keyboard is drawn for. */
  function ShowBadwords(items: seq<string>, requested: int): (r: (BadwordsView, int, int))
    ensures items == [] <==> r.0 == EmptyList
    ensures r.0 == EmptyList ==> r.1 == 0 && r.2 == 1
    ensures r.0.PageView? ==> r.1 == r.0.page && r.2 == r.0.totalPages == TotalPages(|items|) && r.0.totalItems == |items|
  {
    var total := TotalPages(|items|);
    if |items| == 0 then (EmptyList, 0, 1)
    else
      var page := ClampPage(requested, total);
      ClampPageSpec(requested, total);
      (PageView(page, total, |items|, PageSlice(items, page)), page, total)
  }

  /** The page shown is a real page holding 1 to 50 items; a requested real page is shown as asked. */
  lemma {:induction false} ShowBadwordsSpec(items: seq<string>, requested: int)
    requires items != []
    ensures var v := ShowBadwords(items, requested).0;
      v.page < v.totalPages
      && 1 <= |v.shown| <= ItemsPerPage
      && v.shown == PageSlice(items, v.page)
      && (0 <= requested < v.totalPages ==> v.page == requested)
  {
    var total := TotalPages(|items|);
    ClampPageSpec(requested, total);
    PageSliceSpec(items, ClampPage(requested, total));
  }

  // ---------------------------------------------------------------------
  // Bulk entry and the whitelist view

  /** The pieces of a comma-separated message, stripped, with the empty ones dropped. */
  function SplitItems(text: string): seq<string> {
    Kept(SplitOn(text, ','))
  }

  function Kept(pieces: seq<string>): (r: seq<string>)
    ensures |r| <= |pieces|
  {
    if pieces == [] then []
    else if Strip(pieces[0]) == "" then Kept(pieces[1..])
    else [Strip(pieces[0])] + Kept(pieces[1..])
  }

  /** What a bulk-entry item looks like: non-empty, free of commas and of surrounding blanks. */
  predicate CleanItem(it: string) {
    it != "" && ',' !in it && !IsSpace(it[0]) && !IsSpace(it[|it| - 1])
  }

  /** Every item of a message is clean. */
  lemma {:induction false} SplitItemsClean(text: string)
    ensures forall k :: 0 <= k < |SplitItems(text)| ==> CleanItem(SplitItems(text)[k])
  {
    KeptClean(SplitOn(text, ','));
  }

  lemma {:induction false} KeptClean(pieces: seq<string>)
    requires forall k :: 0 <= k < |pieces| ==> ',' !in pieces[k]
    ensures forall k :: 0 <= k < |Kept(pieces)| ==> CleanItem(Kept(pieces)[k])
  {
    if pieces != [] {
      var rest := pieces[1..];
      assert forall k :: 0 <= k < |rest| ==> ',' !in rest[k] by {
        forall k | 0 <= k < |rest| ensures ',' !in rest[k] {
          assert rest[k] == pieces[k + 1];
        }
      }
      KeptClean(rest);
      var h := Strip(pieces[0]);
      if h != "" {
        assert CleanItem(h) by {
          StripInside(pieces[0]);
        }
        var r := Kept(pieces);
        assert r == [h] + Kept(rest);
        forall k | 0 <= k < |r| ensures CleanItem(r[k]) {
          if k > 0 {
            assert r[k] == Kept(rest)[k - 1];
          }
        }
      }
    }
  }

  /** Stripping keeps a contiguous piece of the text. */
  lemma {:induction false} StripInside(s: string)
    ensures forall c :: c in Strip(s) ==> c in s
  {
    var l := LStrip(s);
    assert l == s[|s| - |l|..];
    assert RStrip(l) == l[..|RStrip(l)|];
  }

  /** The list after inserting each item in turn, duplicates (after lower-casing) refused. */
  function AddAll(list: seq<string>, items: seq<string>): seq<string>
    decreases |items|
  {
    if items == [] then list
    else
      var last := items[|items| - 1];
      var before := AddAll(list, items[..|items| - 1]);
      if Lower(last) in before then before else before + [Lower(last)]
  }

  /** Bulk entry only appends, and never creates a duplicate. */
  lemma {:induction false} AddAllSpec(list: seq<string>, items: seq<string>)
    requires NoDuplicates(list)
    ensures |AddAll(list, items)| >= |list| && AddAll(list, items)[..|list|] == list
    ensures NoDuplicates(AddAll(list, items))
    ensures forall k :: 0 <= k < |items| ==> Lower(items[k]) in AddAll(list, items)
    decreases |items|
  {
    if items != [] {
      var init := items[..|items| - 1];
      AddAllSpec(list, init);
      var before := AddAll(list, init);
      if Lower(items[|items| - 1]) !in before {
        AppendKeepsDistinct(before, Lower(items[|items| - 1]));
        assert (before + [Lower(items[|items| - 1])])[..|list|] == before[..|list|];
      }
      forall k | 0 <= k < |items|
        ensures Lower(items[k]) in AddAll(list, items)
      {
        if k < |items| - 1 {
          assert items[k] == init[k];
        }
      }
    }
  }

  /**
   * `process_add_wl` / `process_add_bw`: every item of the message is offered
   * to the list, and the reply counts the ones the list accepted.
   */
  method ProcessAdd(db: Store, table: ListName, text: string) returns (count: nat)
    requires db.Valid()
    modifies db
    ensures db.Valid()
    ensures unchanged(db`users, db`repHistory, db`warnReasons)
    ensures db.ListOf(table) == AddAll(old(db.ListOf(table)), SplitItems(text))
    ensures count == |db.ListOf(table)| - |old(db.ListOf(table))|
    ensures table == Whitelist ==> unchanged(db`badwords)
    ensures table == Badwords ==> unchanged(db`whitelist)
  {
    count := AddItems(db, table, SplitItems(text));
  }

  /** The insert loop of `process_add_*` over the items already split out of the message. */
  method AddItems(db: Store, table: ListName, items: seq<string>) returns (count: nat)
    requires db.Valid()
    modifies db
    ensures db.Valid()
    ensures unchanged(db`users, db`repHistory, db`warnReasons)
    ensures db.ListOf(table) == AddAll(old(db.ListOf(table)), items)
    ensures count == |db.ListOf(table)| - |old(db.ListOf(table))|
    ensures table == Whitelist ==> unchanged(db`badwords)
    ensures table == Badwords ==> unchanged(db`whitelist)
  {
    ghost var start := db.ListOf(table);
    count := 0;
    var i := 0;
    while i < |items|
      invariant 0 <= i <= |items|
      invariant db.Valid()
      invariant unchanged(db`users, db`repHistory, db`warnReasons)
      invariant db.ListOf(table) == AddAll(start, items[..i])
      invariant count == |db.ListOf(table)| - |start|
      invariant table == Whitelist ==> unchanged(db`badwords)
      invariant table == Badwords ==> unchanged(db`whitelist)
    {
      var ok := Offer(db, table, start, items, i);
      if ok {
        count := count + 1;
      }
      i := i + 1;
    }
    assert items[..|items|] == items;
  }

  /** One turn of the insert loop: offers item `i`, which takes the list one step further along `AddAll`. */
  method Offer(db: Store, table: ListName, ghost start: seq<string>, items: seq<string>, i: nat) returns (ok: bool)
    requires db.Valid() && i < |items| && db.ListOf(table) == AddAll(start, items[..i])
    modifies db
    ensures db.Valid()
    ensures unchanged(db`users, db`repHistory, db`warnReasons)
    ensures table == Whitelist ==> unchanged(db`badwords)
    ensures table == Badwords ==> unchanged(db`whitelist)
    ensures db.ListOf(table) == AddAll(start, items[..i + 1])
    ensures |db.ListOf(table)| == |old(db.ListOf(table))| + (if ok then 1 else 0)
  {
    ghost var before := db.ListOf(table);
    ok := db.AddToList(table, items[i]);
    AddOneMore(start, items, i, before, db.ListOf(table));
  }

  /** One more item offered to the list extends `AddAll` by one step. */
  lemma {:induction false} AddOneMore(start: seq<string>, items: seq<string>, i: nat, before: seq<string>, after: seq<string>)
    requires i < |items| && before == AddAll(start, items[..i])
    requires after == if Lower(items[i]) in before then before else before + [Lower(items[i])]
    ensures after == AddAll(start, items[..i + 1])
  {
    assert items[..i + 1][..i] == items[..i];
    assert items[..i + 1][i] == items[i];
  }

  const MaxViewLength: nat := 4000

  /** The whitelist view: cut to its first 4000 characters, marked with "\n...", when longer. */
  function Truncate(text: string): (r: string)
    ensures |text| <= MaxViewLength ==> r == text
    ensures |text| > MaxViewLength ==> |r| == MaxViewLength + 4 && r[..MaxViewLength] == text[..MaxViewLength]
    ensures |r| <= MaxViewLength + 4
  {
    if |text| > MaxViewLength then text[..MaxViewLength] + "\n..." else text
  }
}
