/**
 Keyset pagination: `getEventsCursor` of indexer/src/db.js.  The events table is the list of its
 rows by ascending `seq`, its generated primary key.
 */
module Keyset {
  import opened Options

  datatype Row = Row(seq_: int, contract: string, fn: string, rest: string)

  /** Query options; an empty text is the same as an absent one. */
  datatype Filter = Filter(contract: string, fn: string, kind: string)

  ghost predicate Table(t: seq<Row>) {
    && (forall i :: 0 <= i < |t| ==> t[i].seq_ >= 1)
    && (forall i, j :: 0 <= i < j < |t| ==> t[i].seq_ < t[j].seq_)
  }

  predicate Selected(r: Row, f: Filter) {
    && (f.contract != "" ==> r.contract == f.contract)
    && (f.fn != "" ==> r.fn == f.fn)
    && (f.kind == "soroban" ==> r.contract != "")
    && (f.kind == "classic" ==> r.contract == "")
  }

  /** The `WHERE` clause; the condition on `seq` is there only for a positive cursor. */
  predicate Where(r: Row, f: Filter, after: int) {
    Selected(r, f) && (after > 0 ==> r.seq_ < after)
  }

  /** `SELECT * FROM events WHERE .. ORDER BY seq DESC` */
  function Select(t: seq<Row>, f: Filter, after: int): seq<Row> {
    if t == [] then []
    else (if Where(t[|t| - 1], f, after) then [t[|t| - 1]] else []) + Select(t[..|t| - 1], f, after)
  }

  function Limit(rows: seq<Row>, n: nat): seq<Row> {
    if |rows| <= n then rows else rows[..n]
  }

  datatype Page = Page(data: seq<Row>, next: Option<int>)

  datatype Result = Done(page: Page) | Failed

  /**
   The query and what is made of its rows.  `LIMIT` of a negative number is an SQL error, and with no
   row to take the next cursor from, `data[data.length - 1].seq` throws.
   */
  method GetEventsCursor(t: seq<Row>, f: Filter, after: int, limit: int) returns (r: Result)
    requires Table(t)
    ensures limit >= 1 ==>
              r == Done(Page(Limit(Select(t, f, after), limit),
                             if |Select(t, f, after)| > limit then Some(Select(t, f, after)[limit - 1].seq_) else None))
    ensures r.Failed? <==> limit < 0 || (limit == 0 && Select(t, f, after) != [])
    ensures limit == 0 && r.Done? ==> r.page == Page([], None)
  {
    if limit + 1 < 0 {
      return Failed;
    }
    var rows := Limit(Select(t, f, after), limit + 1);
    var hasMore := |rows| > limit;
    if !hasMore {
      return Done(Page(rows, None));
    }
    // `slice(0, limit)`: a negative end counts from the back
    var data := rows[..if limit >= 0 then limit else 0];
    if data == [] {
      return Failed;
    }
    return Done(Page(data, Some(data[|data| - 1].seq_)));
  }

  /* ----- what a query returns ----- */

  /** The newest row comes first, when it is wanted. */
  lemma SelectUnfold(t: seq<Row>, f: Filter, after: int)
    requires t != []
    ensures var rest := Select(t[..|t| - 1], f, after);
            Select(t, f, after) == if Where(t[|t| - 1], f, after) then [t[|t| - 1]] + rest else rest
  {
    hide Where;
  }

  lemma TableFront(t: seq<Row>, d: int)
    requires Table(t) && t != [] && d == t[|t| - 1].seq_
    ensures Table(t[..|t| - 1])
    ensures forall r :: r in t[..|t| - 1] ==> r.seq_ < d
  {
  }

  lemma {:induction false} SelectedRows(t: seq<Row>, f: Filter, after: int)
    ensures forall r :: r in Select(t, f, after) <==> r in t && Where(r, f, after)
  {
    hide Where, Select;
    if t == [] {
      EmptySelect(f, after);
    } else {
      assert t == t[..|t| - 1] + [t[|t| - 1]];
      SelectUnfold(t, f, after);
      SelectedRows(t[..|t| - 1], f, after);
    }
  }

  lemma EmptySelect(f: Filter, after: int)
    ensures Select([], f, after) == []
  {
  }

  ghost predicate Descending(rows: seq<Row>) {
    forall i, j :: 0 <= i < j < |rows| ==> rows[i].seq_ > rows[j].seq_
  }

  lemma {:induction false} SelectDescends(t: seq<Row>, f: Filter, after: int)
    requires Table(t)
    ensures Descending(Select(t, f, after))
  {
    hide Where, Select, Table;
    if t == [] {
      EmptySelect(f, after);
    } else {
      var last, front := t[|t| - 1], t[..|t| - 1];
      TableFront(t, last.seq_);
      SelectUnfold(t, f, after);
      SelectDescends(front, f, after);
      SelectedRows(front, f, after);
      var rest := Select(front, f, after);
      assert forall i :: 0 <= i < |rest| ==> rest[i] in rest;
    }
  }

  /** The listing has exactly the matching rows, in strictly descending `seq`. */
  lemma SelectMeaning(t: seq<Row>, f: Filter, after: int)
    requires Table(t)
    ensures forall r :: r in Select(t, f, after) <==> r in t && Where(r, f, after)
    ensures Descending(Select(t, f, after))
  {
    SelectedRows(t, f, after);
    SelectDescends(t, f, after);
  }

  lemma IsSelected(t: seq<Row>, f: Filter, after: int, r: Row)
    requires r in t
    ensures r in Select(t, f, after) <==> Where(r, f, after)
  {
    hide Select, Where;
    SelectedRows(t, f, after);
  }

  /** What the options select, one by one, and that the two kinds share out the rows between them. */
  lemma OptionsMeaning(t: seq<Row>, f: Filter, after: int, r: Row)
    requires Table(t) && r in t
    ensures r in Select(t, Filter("", "", ""), 0)
    ensures f.contract != "" ==> (r in Select(t, f, after) <==>
                                    r.contract == f.contract && r in Select(t, f.(contract := ""), after))
    ensures f.fn != "" ==> (r in Select(t, f, after) <==> r.fn == f.fn && r in Select(t, f.(fn := ""), after))
    ensures after > 0 ==> (r in Select(t, f, after) <==> r.seq_ < after && r in Select(t, f, 0))
    ensures r in Select(t, f.(kind := "soroban"), after) <==> r.contract != "" && r in Select(t, f.(kind := ""), after)
    ensures r in Select(t, f.(kind := "classic"), after) <==> r.contract == "" && r in Select(t, f.(kind := ""), after)
    ensures f.kind != "soroban" && f.kind != "classic" ==>
              (r in Select(t, f, after) <==> r in Select(t, f.(kind := ""), after))
  {
    hide Select;
    IsSelected(t, Filter("", "", ""), 0, r);
    IsSelected(t, f, after, r);
    IsSelected(t, f, 0, r);
    IsSelected(t, f.(contract := ""), after, r);
    IsSelected(t, f.(fn := ""), after, r);
    IsSelected(t, f.(kind := ""), after, r);
    IsSelected(t, f.(kind := "soroban"), after, r);
    IsSelected(t, f.(kind := "classic"), after, r);
  }

  lemma {:induction false} SelectAll(t: seq<Row>, f: Filter, c: int, d: int)
    requires Table(t)
    requires d > 0 && (c > 0 ==> d <= c)
    requires forall r :: r in t ==> r.seq_ < d
    ensures Select(t, f, d) == Select(t, f, c)
  {
    if t != [] {
      assert t[|t| - 1] in t;
      SelectAll(t[..|t| - 1], f, c, d);
    }
  }

  /** A listed row is a wanted row of the table, below the rows listed before it. */
  lemma RowFacts(t: seq<Row>, f: Filter, after: int, i: nat)
    requires Table(t) && i < |Select(t, f, after)|
    ensures var r := Select(t, f, after)[i];
            r.seq_ >= 1 && (after > 0 ==> r.seq_ < after) && (i > 0 ==> r.seq_ < Select(t, f, after)[0].seq_)
  {
    SelectMeaning(t, f, after);
    assert Select(t, f, after)[i] in Select(t, f, after);
    hide Select, Selected;
  }

  /** Asking below the `seq` of row `i` gives what comes after row `i`. */
  lemma {:induction false} CursorCuts(t: seq<Row>, f: Filter, after: int, i: nat)
    requires Table(t) && i < |Select(t, f, after)|
    ensures Select(t, f, Select(t, f, after)[i].seq_) == Select(t, f, after)[i + 1..]
  {
    assert t != [];
    hide Select, Selected, Table;
    var last, front := t[|t| - 1], t[..|t| - 1];
    var rest, c := Select(front, f, after), Select(t, f, after)[i].seq_;
    RowFacts(t, f, after, i);
    TableFront(t, last.seq_);
    SelectUnfold(t, f, after);
    SelectUnfold(t, f, c);
    if !Where(last, f, after) {
      assert rest[i].seq_ == c;
      CursorCuts(front, f, after, i);
      assert !Where(last, f, c);
    } else {
      CutsAfterFirst(Select(t, f, after), last, rest, i);
      if i == 0 {
        SelectAll(front, f, after, c);
      } else {
        CursorCuts(front, f, after, i - 1);
      }
    }
  }

  lemma CutsAfterFirst(rows: seq<Row>, first: Row, rest: seq<Row>, i: nat)
    requires rows == [first] + rest && i < |rows|
    ensures rows[0] == first && rows[i + 1..] == rest[i..] && (i > 0 ==> rows[i] == rest[i - 1])
  {
  }

  /** Rows at or above a positive cursor are not seen from it. */
  lemma {:induction false} AppendUnseen(t: seq<Row>, more: seq<Row>, f: Filter, after: int)
    requires after > 0
    requires forall i :: 0 <= i < |more| ==> more[i].seq_ >= after
    ensures Select(t + more, f, after) == Select(t, f, after)
  {
    hide Selected;
    if more == [] {
      assert t + more == t;
    } else {
      assert (t + more)[..|t + more| - 1] == t + more[..|more| - 1];
      AppendUnseen(t, more[..|more| - 1], f, after);
    }
  }

  /* ----- following the cursor ----- */

  ghost predicate Grows(t: seq<Row>, batches: seq<seq<Row>>)
    decreases |batches|
  {
    Table(t) && (batches != [] ==> Grows(t + batches[0], batches[1..]))
  }

  function Next(t: seq<Row>, batches: seq<seq<Row>>): seq<Row> {
    if batches == [] then t else t + batches[0]
  }

  function Rest(batches: seq<seq<Row>>): seq<seq<Row>> {
    if batches == [] then [] else batches[1..]
  }

  lemma NextGrows(t: seq<Row>, batches: seq<seq<Row>>)
    requires Grows(t, batches)
    ensures Grows(Next(t, batches), Rest(batches)) && Table(t)
  {
  }

  lemma CursorStep(t: seq<Row>, batches: seq<seq<Row>>, f: Filter, after: int, limit: nat)
    requires Grows(t, batches)
    requires limit >= 1 && |Select(t, f, after)| > limit
    ensures var c := Select(t, f, after)[limit - 1].seq_;
            c > 0 && Select(Next(t, batches), f, c) == Select(t, f, after)[limit..]
  {
    hide Select, Selected, Descending;
    var rows := Select(t, f, after);
    var c := rows[limit - 1].seq_;
    RowFacts(t, f, after, limit - 1);
    CursorCuts(t, f, after, limit - 1);
    if batches != [] {
      SelectedRows(t, f, after);
      assert rows[limit - 1] in rows;
      LaterAbove(t, batches, rows[limit - 1]);
      AppendUnseen(t, batches[0], f, c);
    }
  }

  /** Rows inserted later have larger numbers. */
  lemma LaterAbove(t: seq<Row>, batches: seq<seq<Row>>, r: Row)
    requires Grows(t, batches) && batches != [] && r in t
    ensures forall i :: 0 <= i < |batches[0]| ==> batches[0][i].seq_ >= r.seq_
  {
    var at :| 0 <= at < |t| && t[at] == r;
    var u := t + batches[0];
    assert Table(u);
    forall i | 0 <= i < |batches[0]| ensures batches[0][i].seq_ >= r.seq_ {
      assert u[at] == t[at] && u[|t| + i] == batches[0][i];
    }
  }

  /** The pages a client gets that follows `next_cursor` until it is null, with `batches` inserted between them. */
  function Follow(t: seq<Row>, batches: seq<seq<Row>>, f: Filter, after: int, limit: nat): seq<seq<Row>>
    requires Grows(t, batches) && limit >= 1
    decreases |Select(t, f, after)|
  {
    var rows := Select(t, f, after);
    if |rows| <= limit then [rows]
    else
      NextGrows(t, batches);
      CursorStep(t, batches, f, after, limit);
      [rows[..limit]] + Follow(Next(t, batches), Rest(batches), f, rows[limit - 1].seq_, limit)
  }

  function Flatten(pages: seq<seq<Row>>): seq<Row> {
    if pages == [] then [] else pages[0] + Flatten(pages[1..])
  }

  /** The pages concatenate to the rows, all but the last are full, and none but a single page is empty. */
  ghost predicate PagesOf(pages: seq<seq<Row>>, rows: seq<Row>, limit: nat) {
    && pages != [] && Flatten(pages) == rows
    && (forall i :: 0 <= i < |pages| - 1 ==> |pages[i]| == limit)
    && |pages[|pages| - 1]| <= limit
    && (|pages| > 1 ==> pages[|pages| - 1] != [])
  }

  lemma OnePage(rows: seq<Row>, limit: nat)
    requires |rows| <= limit
    ensures PagesOf([rows], rows, limit)
  {
    assert [rows][1..] == [];
  }

  lemma PrependPage(page: seq<Row>, tail: seq<seq<Row>>, rest: seq<Row>, limit: nat)
    requires PagesOf(tail, rest, limit) && |page| == limit && rest != []
    ensures PagesOf([page] + tail, page + rest, limit)
  {
    assert ([page] + tail)[1..] == tail;
    if |tail| == 1 {
      assert tail[1..] == [];
      assert Flatten(tail) == tail[0] + Flatten([]) == tail[0];
    }
  }

  lemma FollowUnfold(t: seq<Row>, batches: seq<seq<Row>>, f: Filter, after: int, limit: nat)
    requires Grows(t, batches) && limit >= 1
    ensures var rows := Select(t, f, after);
            if |rows| <= limit then Follow(t, batches, f, after, limit) == [rows]
            else
              && Grows(Next(t, batches), Rest(batches))
              && Select(Next(t, batches), f, rows[limit - 1].seq_) == rows[limit..]
              && Follow(t, batches, f, after, limit)
                 == [rows[..limit]] + Follow(Next(t, batches), Rest(batches), f, rows[limit - 1].seq_, limit)
  {
    hide Select, Grows;
    if |Select(t, f, after)| > limit {
      NextGrows(t, batches);
      CursorStep(t, batches, f, after, limit);
    }
  }

  /**
   Pagination refines the full listing: whatever is inserted between the pages, they are the pages of the
   listing as it stood at the first one.
   */
  lemma {:induction false} PagesAreListing(t: seq<Row>, batches: seq<seq<Row>>, f: Filter, after: int, limit: nat)
    requires Grows(t, batches) && limit >= 1
    ensures PagesOf(Follow(t, batches, f, after, limit), Select(t, f, after), limit)
    decreases |Select(t, f, after)|
  {
    hide Select, Grows, Follow, Next, Rest, PagesOf, Flatten;
    var rows := Select(t, f, after);
    FollowUnfold(t, batches, f, after, limit);
    if |rows| <= limit {
      OnePage(rows, limit);
    } else {
      var c := rows[limit - 1].seq_;
      PagesAreListing(Next(t, batches), Rest(batches), f, c, limit);
      PrependPage(rows[..limit], Follow(Next(t, batches), Rest(batches), f, c, limit), rows[limit..], limit);
      assert rows[..limit] + rows[limit..] == rows;
    }
  }

  /** No row is shown twice. */
  lemma NoRepeats(t: seq<Row>, batches: seq<seq<Row>>, f: Filter, limit: nat)
    requires Grows(t, batches) && limit >= 1
    ensures var shown := Flatten(Follow(t, batches, f, 0, limit));
            && (forall r :: r in shown <==> r in t && Selected(r, f))
            && Descending(shown)
  {
    PagesAreListing(t, batches, f, 0, limit);
    SelectMeaning(t, f, 0);
    hide Flatten, Follow, Select, Selected, Grows;
  }
}
