/** Reading a listing page by page, each page's cursor taken from its last row. */
module CursorWalk {
  import opened Optional
  import opened Sequences

  datatype Page<+T> = Page(items: seq<T>, hasMore: bool)

  /** LIMIT limit + 1, keeping `limit` rows. */
  function Cut<T>(found: seq<T>, limit: nat): Page<T> {
    if |found| <= limit then Page(found, false) else Page(found[..limit], true)
  }

  /** The pages read so far are the first `seen` rows, all but a final page full. */
  ghost predicate Walked<T>(all: seq<T>, pages: seq<seq<T>>, limit: nat, seen: nat, more: bool) {
    && seen <= |all| && Flatten(pages) == all[..seen] && (!more ==> seen == |all|)
    && (forall i :: 0 <= i < |pages| - (if more then 0 else 1) ==> |pages[i]| == limit)
  }

  lemma {:induction false} WalkStep<T>(all: seq<T>, pages: seq<seq<T>>, limit: nat, seen: nat, page: Page<T>)
    requires Walked(all, pages, limit, seen, true) && page == Cut(all[seen..], limit)
    ensures seen + |page.items| <= |all|
    ensures Walked(all, pages + [page.items], limit, seen + |page.items|, page.hasMore)
    ensures page.hasMore && limit > 0 ==>
              page.items != [] && page.items[|page.items| - 1] == all[seen + |page.items| - 1]
  {
    FlattenSnoc(pages, page.items);
    assert all[..seen] + page.items == all[..seen + |page.items|];
  }

  // ----- A listing, what a cursor asks of it, and where rows send the reader -----

  /** The cursor of row i asks for what follows the row or, if the row sends back,
      for everything again. */
  ghost predicate Sends<T>(all: seq<T>, ask: string -> seq<T>, mark: T -> string, back: T -> bool, i: nat)
    requires i < |all|
  {
    ask(mark(all[i])) == if back(all[i]) then all else all[i + 1..]
  }

  /** Without a cursor the whole listing is asked for. */
  ghost predicate Asks<T>(all: seq<T>, ask: string -> seq<T>, mark: T -> string, back: T -> bool) {
    ask("") == all && forall i: nat :: i < |all| ==> Sends(all, ask, mark, back, i)
  }

  /** How many rows the first k pages hold when each is full. */
  function PageEnd(k: nat, limit: nat): (n: nat)
    ensures k >= 1 ==> n >= limit
  {
    if k == 0 then 0 else PageEnd(k - 1, limit) + limit
  }

  lemma {:induction false} PageEndIsProduct(k: nat, limit: nat)
    ensures PageEnd(k, limit) == k * limit
  {
    if k > 0 {
      PageEndIsProduct(k - 1, limit);
    }
  }

  lemma {:induction false} PageEndGrows(i: nat, k: nat, limit: nat)
    requires i <= k
    ensures PageEnd(i, limit) <= PageEnd(k, limit)
  {
    if i < k {
      PageEndGrows(i, k - 1, limit);
    }
  }

  /** No page but the last ends in a row that sends back: not the row `limit`, nor
      any multiple of it that more rows follow. */
  ghost predicate CleanEnds<T>(all: seq<T>, back: T -> bool, limit: nat)
    requires limit >= 1
  {
    forall n: nat :: 0 < n < |all| && n % limit == 0 ==> !back(all[n - 1])
  }

  /** The same, page by page. */
  ghost predicate CleanPages<T>(all: seq<T>, back: T -> bool, limit: nat)
    requires limit >= 1
  {
    forall k: nat :: 1 <= k && PageEnd(k, limit) < |all| ==> !back(all[PageEnd(k, limit) - 1])
  }

  lemma {:induction false} WholePages(d: int, limit: nat)
    ensures d >= 1 ==> d * limit >= limit
    ensures d <= -1 ==> d * limit + limit <= 0
  {
  }

  lemma {:induction false} MultipleOf(k: nat, limit: nat)
    requires limit >= 1
    ensures (k * limit) % limit == 0
  {
    var q, r := (k * limit) / limit, (k * limit) % limit;
    assert r == (k - q) * limit by {
      assert k * limit == q * limit + r;
    }
    WholePages(k - q, limit);
  }

  lemma {:induction false} CleanPagesIff<T>(all: seq<T>, back: T -> bool, limit: nat)
    requires limit >= 1
    ensures CleanPages(all, back, limit) <==> CleanEnds(all, back, limit)
  {
    if CleanPages(all, back, limit) {
      forall n: nat | 0 < n < |all| && n % limit == 0 ensures !back(all[n - 1]) {
        PageEndIsProduct(n / limit, limit);
        assert PageEnd(n / limit, limit) == n;
      }
    }
    if CleanEnds(all, back, limit) {
      forall k: nat | 1 <= k && PageEnd(k, limit) < |all| ensures !back(all[PageEnd(k, limit) - 1]) {
        PageEndIsProduct(k, limit);
        MultipleOf(k, limit);
      }
    }
  }

  /** The cursor of request n, the first being sent without one. */
  function Follow<T>(ask: string -> seq<T>, mark: T -> string, limit: nat, n: nat): Option<string>
    requires limit >= 1
  {
    if n == 0 then Some("")
    else match Follow(ask, mark, limit, n - 1)
         case None => None
         case Some(c) => if |ask(c)| <= limit then None else Some(mark(ask(c)[limit - 1]))
  }

  /** The cursor asks for the listing from row `at` on. */
  predicate StandsAt<T(==)>(all: seq<T>, ask: string -> seq<T>, cursor: string, at: nat) {
    at <= |all| && ask(cursor) == all[at..]
  }

  lemma {:induction false} NextStands<T>(
    all: seq<T>, ask: string -> seq<T>, mark: T -> string, back: T -> bool, limit: nat, cursor: string, at: nat)
    requires limit >= 1 && Asks(all, ask, mark, back) && StandsAt(all, ask, cursor, at) && at + limit < |all|
    ensures |ask(cursor)| > limit && ask(cursor)[limit - 1] == all[at + limit - 1]
    ensures StandsAt(all, ask, mark(all[at + limit - 1]), if back(all[at + limit - 1]) then 0 else at + limit)
  {
    assert Sends(all, ask, mark, back, at + limit - 1);
    assert all[0..] == all;
  }

  lemma {:induction false} FollowStep<T>(
    all: seq<T>, ask: string -> seq<T>, mark: T -> string, back: T -> bool, limit: nat, n: nat, at: nat)
    requires limit >= 1 && Asks(all, ask, mark, back) && Follow(ask, mark, limit, n).Some?
    requires StandsAt(all, ask, Follow(ask, mark, limit, n).value, at)
    ensures var next := Follow(ask, mark, limit, n + 1);
            if at + limit < |all| then
              next.Some? && StandsAt(all, ask, next.value, if back(all[at + limit - 1]) then 0 else at + limit)
            else next.None?
  {
    if at + limit < |all| {
      NextStands(all, ask, mark, back, limit, Follow(ask, mark, limit, n).value, at);
    }
  }

  /** While page ends are clean, request n asks for the rows behind n full pages. */
  lemma {:induction false} CleanFollow<T>(all: seq<T>, ask: string -> seq<T>, mark: T -> string, back: T -> bool, limit: nat, n: nat)
    requires limit >= 1 && Asks(all, ask, mark, back) && CleanPages(all, back, limit)
    requires n == 0 || PageEnd(n, limit) < |all|
    ensures Follow(ask, mark, limit, n).Some? && StandsAt(all, ask, Follow(ask, mark, limit, n).value, PageEnd(n, limit))
  {
    if n > 0 {
      CleanFollow(all, ask, mark, back, limit, n - 1);
      FollowStep(all, ask, mark, back, limit, n - 1, PageEnd(n - 1, limit));
    }
  }

  /** The request whose page is the last. */
  lemma {:induction false} LastPage(size: nat, limit: nat, n: nat) returns (m: nat)
    requires limit >= 1 && (n == 0 || PageEnd(n, limit) < size)
    ensures (m == 0 || PageEnd(m, limit) < size) && size <= PageEnd(m, limit) + limit
    decreases size - PageEnd(n, limit)
  {
    if size <= PageEnd(n, limit) + limit {
      m := n;
    } else {
      m := LastPage(size, limit, n + 1);
    }
  }

  /** Once page `bad` sends back, every request is answered by one of the pages up
      to it, again and again. */
  lemma {:induction false} BackFollow<T>(
    all: seq<T>, ask: string -> seq<T>, mark: T -> string, back: T -> bool, limit: nat, bad: nat, n: nat) returns (j: nat)
    requires limit >= 1 && Asks(all, ask, mark, back) && 1 <= bad && PageEnd(bad, limit) < |all|
    requires back(all[PageEnd(bad, limit) - 1])
    ensures j < bad && Follow(ask, mark, limit, n).Some? && StandsAt(all, ask, Follow(ask, mark, limit, n).value, PageEnd(j, limit))
  {
    if n == 0 {
      j := 0;
    } else {
      var before := BackFollow(all, ask, mark, back, limit, bad, n - 1);
      PageEndGrows(before + 1, bad, limit);
      FollowStep(all, ask, mark, back, limit, n - 1, PageEnd(before, limit));
      j := if back(all[PageEnd(before + 1, limit) - 1]) then 0 else before + 1;
    }
  }

  /** Following the cursors comes to an end exactly when no page but the last ends
      in a row that sends back. */
  lemma {:induction false} EndsIffClean<T>(all: seq<T>, ask: string -> seq<T>, mark: T -> string, back: T -> bool, limit: nat)
    requires limit >= 1 && Asks(all, ask, mark, back)
    ensures (exists n: nat :: Follow(ask, mark, limit, n).None?) <==> CleanEnds(all, back, limit)
  {
    CleanPagesIff(all, back, limit);
    if CleanPages(all, back, limit) {
      var m := LastPage(|all|, limit, 0);
      CleanFollow(all, ask, mark, back, limit, m);
      FollowStep(all, ask, mark, back, limit, m, PageEnd(m, limit));
    } else {
      var bad: nat :| 1 <= bad && PageEnd(bad, limit) < |all| && back(all[PageEnd(bad, limit) - 1]);
      forall n: nat ensures Follow(ask, mark, limit, n).Some? {
        var j := BackFollow(all, ask, mark, back, limit, bad, n);
      }
    }
  }

  // ----- A walk that ends -----

  /** `n` full pages have been read and `cursor` asks for the rest, or all is read. */
  ghost predicate Walking<T>(
    all: seq<T>, ask: string -> seq<T>, limit: nat, pages: seq<seq<T>>, cursor: string, n: nat, more: bool)
  {
    && Walked(all, pages, limit, if more then PageEnd(n, limit) else |all|, more)
    && (more ==> StandsAt(all, ask, cursor, PageEnd(n, limit)))
  }

  lemma {:induction false} WalkStarts<T>(all: seq<T>, ask: string -> seq<T>, limit: nat)
    requires ask("") == all
    ensures Walking(all, ask, limit, [], "", 0, true)
  {
  }

  /** One more page of a walk with clean page ends. */
  lemma {:induction false} WalkOn<T>(
    all: seq<T>, ask: string -> seq<T>, mark: T -> string, back: T -> bool, limit: nat, pages: seq<seq<T>>, cursor: string, n: nat,
    page: Page<T>)
    requires limit >= 1 && Asks(all, ask, mark, back) && CleanPages(all, back, limit)
    requires Walking(all, ask, limit, pages, cursor, n, true) && page == Cut(ask(cursor), limit)
    ensures page.hasMore ==> page.items != [] && PageEnd(n + 1, limit) < |all|
    ensures page.hasMore ==> Walking(all, ask, limit, pages + [page.items], mark(page.items[|page.items| - 1]), n + 1, true)
    ensures !page.hasMore ==> Walking(all, ask, limit, pages + [page.items], cursor, n, false)
  {
    WalkStep(all, pages, limit, PageEnd(n, limit), page);
    if page.hasMore {
      NextStands(all, ask, mark, back, limit, cursor, PageEnd(n, limit));
      assert PageEnd(n + 1, limit) == PageEnd(n, limit) + limit;
    }
  }

  lemma {:induction false} WalkEnds<T>(all: seq<T>, ask: string -> seq<T>, limit: nat, pages: seq<seq<T>>, cursor: string, n: nat)
    requires Walking(all, ask, limit, pages, cursor, n, false)
    ensures Flatten(pages) == all && forall i :: 0 <= i < |pages| - 1 ==> |pages[i]| == limit
  {
    assert all[..|all|] == all;
  }
}
