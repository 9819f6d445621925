/** Cursor loops against an arbitrary page server.

    The server's answer may depend on the number of the request as well as on the cursor, and it may fail. */
module Pagination {
  import opened Common

  type Cursor = string

  datatype Page<T> = Page(items: seq<T>, next: Option<Cursor>)

  type Server<!T> = (nat, Option<Cursor>) -> Option<Page<T>>

  const MAX_PAGES: nat := 100
  const SWITCHER_MAX_PAGES: nat := 10

  function CursorOf<T>(pages: seq<Page<T>>, k: nat): Option<Cursor>
    requires k <= |pages|
  {
    if k == 0 then None else pages[k - 1].next
  }

  /** `pages` are the server's answers when each request carries the cursor of the page before it. */
  ghost predicate Chain<T>(server: Server<T>, pages: seq<Page<T>>) {
    forall k :: 0 <= k < |pages| ==> Answers(server, pages, k)
  }

  ghost predicate Answers<T>(server: Server<T>, pages: seq<Page<T>>, k: nat)
    requires k < |pages|
  {
    server(k, CursorOf(pages, k)) == Some(pages[k]) && (k > 0 ==> pages[k - 1].next.Some?)
  }

  ghost predicate FreshCursors<T>(pages: seq<Page<T>>) {
    forall j, k :: 0 <= j < k < |pages| && pages[j].next.Some? ==> pages[j].next != pages[k].next
  }

  /** The whole listing: the chain ends, in time, and no cursor comes twice. */
  ghost predicate Complete<T>(server: Server<T>, pages: seq<Page<T>>, limit: nat) {
    && Chain(server, pages) && 0 < |pages| <= limit && pages[|pages| - 1].next.None? && FreshCursors(pages)
  }

  function Concat<T>(pages: seq<Page<T>>): seq<T> {
    if pages == [] then [] else Concat(pages[..|pages| - 1]) + pages[|pages| - 1].items
  }

  lemma ConcatOn<T>(pages: seq<Page<T>>, page: Page<T>)
    ensures Concat(pages + [page]) == Concat(pages) + page.items
  {
    assert (pages + [page])[..|pages|] == pages;
  }

  lemma {:induction false} ChainsAgree<T>(server: Server<T>, a: seq<Page<T>>, b: seq<Page<T>>, k: nat)
    requires Chain(server, a) && Chain(server, b) && k < |a| && k < |b|
    ensures a[k] == b[k]
  {
    if k > 0 { ChainsAgree(server, a, b, k - 1); }
    assert Answers(server, a, k) && Answers(server, b, k);
  }

  lemma GoesOn<T>(server: Server<T>, pages: seq<Page<T>>)
    requires Chain(server, pages)
    ensures forall k :: 0 <= k < |pages| - 1 ==> pages[k].next.Some?
  {
    forall k | 0 <= k < |pages| - 1 ensures pages[k].next.Some? { assert Answers(server, pages, k + 1); }
  }

  /** There is at most one listing, whatever the bound: loops with different bounds agree when both return. */
  lemma CompleteUnique<T>(server: Server<T>, a: seq<Page<T>>, b: seq<Page<T>>, limitA: nat, limitB: nat)
    requires Complete(server, a, limitA) && Complete(server, b, limitB)
    ensures a == b
  {
    forall k | 0 <= k < |a| && k < |b| ensures a[k] == b[k] { ChainsAgree(server, a, b, k); }
    GoesOn(server, a);
    GoesOn(server, b);
  }

  /** A chain that still has a next page is a proper beginning of every listing. */
  lemma Begins<T>(server: Server<T>, pages: seq<Page<T>>, whole: seq<Page<T>>, limit: nat)
    requires Chain(server, pages) && Complete(server, whole, limit)
    requires pages != [] ==> pages[|pages| - 1].next.Some?
    ensures |pages| < |whole| && whole[..|pages|] == pages
    ensures server(|pages|, CursorOf(pages, |pages|)) == Some(whole[|pages|])
  {
    forall k | 0 <= k < |pages| && k < |whole| ensures pages[k] == whole[k] { ChainsAgree(server, pages, whole, k); }
    GoesOn(server, pages);
    assert |pages| < |whole|;
    assert Answers(server, whole, |pages|);
  }

  lemma ChainOn<T>(server: Server<T>, pages: seq<Page<T>>, page: Page<T>)
    requires Chain(server, pages) && (pages != [] ==> pages[|pages| - 1].next.Some?)
    requires server(|pages|, CursorOf(pages, |pages|)) == Some(page)
    ensures Chain(server, pages + [page])
  {
    var longer := pages + [page];
    forall k | 0 <= k < |longer| ensures Answers(server, longer, k) {
      assert CursorOf(longer, k) == CursorOf(pages, k);
      if k < |pages| { assert Answers(server, pages, k); }
    }
  }

  /** The cursors seen so far are those of the pages so far, and none repeats. */
  ghost predicate Seen<T>(pages: seq<Page<T>>, seen: set<Cursor>) {
    && (forall k :: 0 <= k < |pages| ==> pages[k].next.Some? && pages[k].next.value in seen)
    && (forall c :: c in seen ==> exists k :: 0 <= k < |pages| && pages[k].next == Some(c))
    && FreshCursors(pages)
  }

  lemma SeenOn<T>(pages: seq<Page<T>>, seen: set<Cursor>, page: Page<T>)
    requires Seen(pages, seen)
    ensures page.next.Some? && page.next.value !in seen ==> Seen(pages + [page], seen + {page.next.value})
    ensures page.next.None? ==> FreshCursors(pages + [page])
    ensures page.next.Some? && page.next.value in seen ==> !FreshCursors(pages + [page])
  {
    var longer := pages + [page];
    if page.next.Some? && page.next.value in seen {
      var k :| 0 <= k < |pages| && pages[k].next == Some(page.next.value);
      assert longer[k].next == longer[|pages|].next;
    }
    if page.next.Some? && page.next.value !in seen {
      var more := seen + {page.next.value};
      forall c | c in more ensures exists k :: 0 <= k < |longer| && longer[k].next == Some(c) {
        if c in seen {
          var k :| 0 <= k < |pages| && pages[k].next == Some(c);
          assert longer[k].next == Some(c);
        } else {
          assert longer[|pages|].next == Some(c);
        }
      }
    }
  }

  lemma FreshPrefix<T>(pages: seq<Page<T>>, k: nat)
    requires FreshCursors(pages) && k <= |pages|
    ensures FreshCursors(pages[..k])
  {}

  /** Returns the listing exactly when there is one within the bound: its pages' items, in order. */
  method LoadAll<T>(server: Server<T>, limit: nat := MAX_PAGES) returns (items: Option<seq<T>>)
    ensures items.Some? <==> exists pages :: Complete(server, pages, limit)
    ensures forall pages :: Complete(server, pages, limit) ==> items == Some(Concat(pages))
  {
    hide Chain, Seen, Complete, FreshCursors, Concat;
    var loaded: seq<T> := [];
    var seenCursors: set<Cursor> := {};
    var cursor: Option<Cursor> := None;
    ghost var pages: seq<Page<T>> := [];
    NothingLoaded(server);
    for pageNumber := 0 to limit
      invariant Loading(server, pages, pageNumber, seenCursors, cursor) && loaded == Concat(pages)
    {
      var answer := server(pageNumber, cursor);
      if answer.None? {
        forall whole ensures !Complete(server, whole, limit) {
          NoListing(server, pages, pageNumber, seenCursors, cursor, whole, limit);
        }
        return None;
      }
      var page := answer.value;
      ConcatOn(pages, page);
      LoadingOn(server, pages, pageNumber, seenCursors, cursor, page, limit);
      loaded := loaded + page.items;
      if page.next.None? {
        ghost var whole := pages + [page];
        forall other | Complete(server, other, limit) ensures other == whole {
          CompleteUnique(server, other, whole, limit, limit);
        }
        assert Complete(server, whole, limit);
        return Some(loaded);
      }
      if page.next.value in seenCursors {
        forall whole ensures !Complete(server, whole, limit) {
          RepeatedCursor(server, pages, pageNumber, seenCursors, cursor, page, whole, limit);
        }
        return None;
      }
      seenCursors := seenCursors + {page.next.value};
      cursor := page.next;
      pages := pages + [page];
    }
    forall whole ensures !Complete(server, whole, limit) {
      NoListing(server, pages, limit, seenCursors, cursor, whole, limit);
    }
    return None;
  }

  ghost predicate Loading<T>(server: Server<T>, pages: seq<Page<T>>, n: nat, seen: set<Cursor>, cursor: Option<Cursor>) {
    Chain(server, pages) && |pages| == n && Seen(pages, seen) && cursor == CursorOf(pages, n)
  }

  lemma NothingLoaded<T>(server: Server<T>)
    ensures Loading(server, [], 0, {}, None) && Concat<T>([]) == []
  {}

  lemma ChainOfLoading<T>(server: Server<T>, pages: seq<Page<T>>, n: nat, seen: set<Cursor>, cursor: Option<Cursor>, page: Page<T>)
    requires Loading(server, pages, n, seen, cursor) && server(n, cursor) == Some(page)
    ensures Chain(server, pages + [page]) && |pages + [page]| == n + 1
  {
    assert pages != [] ==> pages[|pages| - 1].next.Some?;
    ChainOn(server, pages, page);
  }

  /** Where the loop gives up there is no listing. */
  lemma NoListing<T>(server: Server<T>, pages: seq<Page<T>>, n: nat, seen: set<Cursor>, cursor: Option<Cursor>,
                     whole: seq<Page<T>>, limit: nat)
    requires Loading(server, pages, n, seen, cursor) && n <= limit && (n == limit || server(n, cursor).None?)
    ensures !Complete(server, whole, limit)
  {
    assert pages != [] ==> pages[|pages| - 1].next.Some?;
    if Complete(server, whole, limit) {
      Begins(server, pages, whole, limit);
    }
  }

  /** A repeated cursor is repeated in every chain that goes on from here. */
  lemma RepeatedCursor<T>(server: Server<T>, pages: seq<Page<T>>, n: nat, seen: set<Cursor>, cursor: Option<Cursor>,
                          page: Page<T>, whole: seq<Page<T>>, limit: nat)
    requires Loading(server, pages, n, seen, cursor) && server(n, cursor) == Some(page)
    requires page.next.Some? && page.next.value in seen
    ensures !Complete(server, whole, limit)
  {
    ChainOfLoading(server, pages, n, seen, cursor, page);
    SeenOn(pages, seen, page);
    var longer := pages + [page];
    if Complete(server, whole, limit) {
      Begins(server, longer, whole, limit);
      FreshPrefix(whole, |longer|);
    }
  }

  lemma LoadingOn<T>(server: Server<T>, pages: seq<Page<T>>, n: nat, seen: set<Cursor>, cursor: Option<Cursor>,
                     page: Page<T>, limit: nat)
    requires Loading(server, pages, n, seen, cursor) && server(n, cursor) == Some(page) && n < limit
    ensures page.next.None? ==> Complete(server, pages + [page], limit)
    ensures page.next.Some? && page.next.value !in seen ==>
            Loading(server, pages + [page], n + 1, seen + {page.next.value}, page.next)
  {
    ChainOfLoading(server, pages, n, seen, cursor, page);
    SeenOn(pages, seen, page);
  }

  lemma {:induction false} ConcatPrefix<T>(pages: seq<Page<T>>, k: nat)
    requires k <= |pages|
    ensures Concat(pages[..k]) <= Concat(pages)
    decreases |pages|
  {
    if k == |pages| {
      assert pages[..k] == pages;
    } else {
      ConcatPrefix(pages[..|pages| - 1], k);
      assert pages[..|pages| - 1][..k] == pages[..k];
    }
  }

  /** The page just read belongs to every listing there is. */
  lemma PageOfListing<T>(server: Server<T>, pages: seq<Page<T>>, n: nat, seen: set<Cursor>, cursor: Option<Cursor>,
                         page: Page<T>, whole: seq<Page<T>>, limit: nat)
    requires Loading(server, pages, n, seen, cursor) && server(n, cursor) == Some(page) && Complete(server, whole, limit)
    ensures n < |whole| && whole[..n + 1] == pages + [page]
    ensures Concat(pages + [page]) <= Concat(whole)
  {
    assert pages != [] ==> pages[|pages| - 1].next.Some?;
    Begins(server, pages, whole, limit);
    ConcatPrefix(whole, n + 1);
  }

  // The workspace selector.

  datatype Organization = Organization(id: string, name: string, version: nat)

  ghost predicate DistinctIds(items: seq<Organization>) {
    forall i, j :: 0 <= i < j < |items| ==> items[i].id != items[j].id
  }

  function Ids(items: seq<Organization>): set<string> { set i | 0 <= i < |items| :: items[i].id }

  /** Adds the items of one page, or refuses if an identity comes twice. */
  method AddPage(organizations: seq<Organization>, ids: set<string>, items: seq<Organization>)
    returns (added: Option<seq<Organization>>, moreIds: set<string>)
    requires DistinctIds(organizations) && ids == Ids(organizations)
    ensures added.Some? <==> DistinctIds(organizations + items)
    ensures added.Some? ==> added.value == organizations + items && moreIds == Ids(added.value)
  {
    var list := organizations;
    moreIds := ids;
    for i := 0 to |items|
      invariant list == organizations + items[..i] && DistinctIds(list) && moreIds == Ids(list)
    {
      var organization := items[i];
      var longer := list + [organization];
      assert longer == organizations + items[..i + 1];
      IdsOn(list, organization);
      if organization.id in moreIds {
        Refused(longer, organizations + items);
        return None, moreIds;
      }
      moreIds := moreIds + {organization.id};
      list := longer;
    }
    assert items[..|items|] == items;
    return Some(list), moreIds;
  }

  lemma IdsOn(list: seq<Organization>, o: Organization)
    requires DistinctIds(list)
    ensures Ids(list + [o]) == Ids(list) + {o.id}
    ensures DistinctIds(list + [o]) <==> o.id !in Ids(list)
  {
    var longer := list + [o];
    assert forall i :: 0 <= i < |list| ==> longer[i] == list[i];
    assert longer[|list|] == o;
    forall x ensures x in Ids(longer) <==> x in Ids(list) + {o.id} {
      if x in Ids(list) { var i :| 0 <= i < |list| && list[i].id == x; assert longer[i].id == x; }
      if x == o.id { assert longer[|list|].id == x; }
    }
    if o.id in Ids(list) {
      var i :| 0 <= i < |list| && list[i].id == o.id;
      assert longer[i].id == longer[|list|].id;
    }
  }

  lemma Refused(part: seq<Organization>, whole: seq<Organization>)
    requires part <= whole && !DistinctIds(part)
    ensures !DistinctIds(whole)
  {
    var i, j :| 0 <= i < j < |part| && part[i].id == part[j].id;
    assert whole[i].id == whole[j].id;
  }

  /** The bounded selector: the same listing, within ten pages and with every identity once, or nothing. */
  method LoadSwitcherOrganizations(server: Server<Organization>, limit: nat := SWITCHER_MAX_PAGES) returns (r: Option<seq<Organization>>)
    ensures r.Some? <==> exists pages :: Complete(server, pages, limit) && DistinctIds(Concat(pages))
    ensures forall pages :: Complete(server, pages, limit) && DistinctIds(Concat(pages)) ==>
              r == Some(Concat(pages))
  {
    hide Chain, Seen, Complete, FreshCursors, Concat, DistinctIds, Ids;
    var organizations: seq<Organization> := [];
    var ids: set<string> := {};
    var cursors: set<Cursor> := {};
    var cursor: Option<Cursor> := None;
    ghost var pages: seq<Page<Organization>> := [];
    NothingLoaded(server);
    NoIds();
    for pageNumber := 0 to limit
      invariant Loading(server, pages, pageNumber, cursors, cursor) && organizations == Concat(pages)
      invariant DistinctIds(organizations) && ids == Ids(organizations)
    {
      var answer := server(pageNumber, cursor);
      if answer.None? {
        forall whole ensures !Complete(server, whole, limit) {
          NoListing(server, pages, pageNumber, cursors, cursor, whole, limit);
        }
        return None;
      }
      var page := answer.value;
      ConcatOn(pages, page);
      LoadingOn(server, pages, pageNumber, cursors, cursor, page, limit);
      var added;
      added, ids := AddPage(organizations, ids, page.items);
      if added.None? {
        forall whole | Complete(server, whole, limit) ensures !DistinctIds(Concat(whole)) {
          RepeatedId(server, pages, pageNumber, cursors, cursor, page, whole, limit);
        }
        return None;
      }
      organizations := added.value;
      if page.next.None? {
        ghost var whole := pages + [page];
        forall other | Complete(server, other, limit) ensures other == whole {
          CompleteUnique(server, other, whole, limit, limit);
        }
        assert Complete(server, whole, limit) && DistinctIds(Concat(whole));
        return Some(organizations);
      }
      if page.next.value in cursors {
        forall whole ensures !Complete(server, whole, limit) {
          RepeatedCursor(server, pages, pageNumber, cursors, cursor, page, whole, limit);
        }
        return None;
      }
      cursors := cursors + {page.next.value};
      cursor := page.next;
      pages := pages + [page];
    }
    forall whole ensures !Complete(server, whole, limit) {
      NoListing(server, pages, limit, cursors, cursor, whole, limit);
    }
    return None;
  }

  lemma NoIds() ensures DistinctIds([]) && Ids([]) == {} {}

  /** An identity repeated on the way is repeated in the listing. */
  lemma RepeatedId(server: Server<Organization>, pages: seq<Page<Organization>>, n: nat, seen: set<Cursor>,
                   cursor: Option<Cursor>, page: Page<Organization>,
                   whole: seq<Page<Organization>>, limit: nat)
    requires Loading(server, pages, n, seen, cursor) && server(n, cursor) == Some(page) && Complete(server, whole, limit)
    requires !DistinctIds(Concat(pages + [page]))
    ensures !DistinctIds(Concat(whole))
  {
    PageOfListing(server, pages, n, seen, cursor, page, whole, limit);
    Refused(Concat(pages + [page]), Concat(whole));
  }

  // The early-exit search for a member's role.

  datatype Role = Owner | Admin | Auditor | Viewer

  datatype Member = Member(id: string, role: Role, active: bool)

  function FindMember(items: seq<Member>, id: string): Option<Member> {
    if items == [] then None else if items[0].id == id then Some(items[0]) else FindMember(items[1..], id)
  }

  function RoleOf(found: Option<Member>): Role {
    if found.Some? && found.value.active then found.value.role else Viewer
  }

  /** The answer on a list of members, by indices: the role of the first member of that identity, if it is active, and
      otherwise a viewer's. */
  ghost predicate IsRoleIn(items: seq<Member>, id: string, role: Role) {
    || (exists i :: FirstAt(items, id, i) && role == if items[i].active then items[i].role else Viewer)
    || (role == Viewer && forall i :: 0 <= i < |items| ==> items[i].id != id)
  }

  /** `i` is the least index of a member of that identity. */
  ghost predicate FirstAt(items: seq<Member>, id: string, i: int) {
    0 <= i < |items| && items[i].id == id && forall j :: 0 <= j < i ==> items[j].id != id
  }

  lemma {:induction false} FindByIndex(items: seq<Member>, id: string)
    ensures FindMember(items, id).None? <==> forall i :: 0 <= i < |items| ==> items[i].id != id
    ensures forall i :: FirstAt(items, id, i) ==> FindMember(items, id) == Some(items[i])
    ensures FindMember(items, id).Some? ==> exists i :: FirstAt(items, id, i)
    decreases |items|
  {
    if items == [] { return; }
    var rest := items[1..];
    assert forall j :: 0 <= j < |rest| ==> rest[j] == items[j + 1];
    if items[0].id == id {
      assert FirstAt(items, id, 0);
    } else {
      FindByIndex(rest, id);
      forall i | FirstAt(items, id, i) ensures FindMember(items, id) == Some(items[i]) {
        assert FirstAt(rest, id, i - 1) by {
          forall j | 0 <= j < i - 1 ensures rest[j].id != id { assert rest[j] == items[j + 1]; }
        }
      }
      if FindMember(items, id).Some? {
        var i :| FirstAt(rest, id, i);
        assert FirstAt(items, id, i + 1);
      }
      assert items[0].id != id;
      if forall i :: 0 <= i < |items| ==> items[i].id != id {
        assert forall j :: 0 <= j < |rest| ==> rest[j].id != id;
      }
      if forall j :: 0 <= j < |rest| ==> rest[j].id != id {
        forall i | 0 <= i < |items| ensures items[i].id != id { if i > 0 { assert items[i] == rest[i - 1]; } }
      }
    }
  }

  lemma RoleByIndex(items: seq<Member>, id: string)
    ensures IsRoleIn(items, id, RoleOf(FindMember(items, id)))
  {
    hide FindMember;
    FindByIndex(items, id);
    if FindMember(items, id).Some? { var i :| FirstAt(items, id, i); }
  }

  /** There is one answer. */
  lemma RoleUnique(items: seq<Member>, id: string, a: Role, b: Role)
    requires IsRoleIn(items, id, a) && IsRoleIn(items, id, b)
    ensures a == b
  {
    if (exists i :: FirstAt(items, id, i)) {
      var i :| FirstAt(items, id, i);
      assert items[i].id == id;
    }
  }

  lemma {:induction false} FindInConcat(a: seq<Member>, b: seq<Member>, id: string)
    ensures FindMember(a + b, id) == if FindMember(a, id).Some? then FindMember(a, id) else FindMember(b, id)
  {
    if a == [] {
      assert a + b == b;
    } else {
      assert (a + b)[1..] == a[1..] + b;
      FindInConcat(a[1..], b, id);
    }
  }

  /** Stops at the first page that has the member; whenever the whole listing exists, the answer is a search of it. */
  method FindMemberRole(server: Server<Member>, id: string, limit: nat := MAX_PAGES) returns (role: Option<Role>)
    ensures forall pages :: Complete(server, pages, limit) ==> role.Some? && IsRoleIn(Concat(pages), id, role.value)
    ensures role.Some? ==> exists pages: seq<Page<Member>> ::
              && Chain(server, pages) && 0 < |pages| <= limit && IsRoleIn(Concat(pages), id, role.value)
              && (pages[|pages| - 1].next.None? || exists i :: FirstAt(Concat(pages), id, i))
  {
    role := SearchPages(server, id, limit);
    hide Chain, Complete, Concat, FindMember, IsRoleIn;
    forall pages | Complete(server, pages, limit) ensures role.Some? && IsRoleIn(Concat(pages), id, role.value) {
      RoleByIndex(Concat(pages), id);
    }
    if role.Some? {
      ghost var pages: seq<Page<Member>> :|
        && Chain(server, pages) && 0 < |pages| <= limit && role.value == RoleOf(FindMember(Concat(pages), id))
        && (pages[|pages| - 1].next.None? || FindMember(Concat(pages), id).Some?);
      RoleByIndex(Concat(pages), id);
      FindByIndex(Concat(pages), id);
    }
  }

  /** The loop, against a search function. */
  method SearchPages(server: Server<Member>, id: string, limit: nat) returns (role: Option<Role>)
    ensures forall pages :: Complete(server, pages, limit) ==> role == Some(RoleOf(FindMember(Concat(pages), id)))
    ensures role.Some? ==> exists pages: seq<Page<Member>> ::
              && Chain(server, pages) && 0 < |pages| <= limit && role.value == RoleOf(FindMember(Concat(pages), id))
              && (pages[|pages| - 1].next.None? || FindMember(Concat(pages), id).Some?)
  {
    hide Chain, Seen, Complete, FreshCursors, Concat, FindMember;
    var seenCursors: set<Cursor> := {};
    var cursor: Option<Cursor> := None;
    ghost var pages: seq<Page<Member>> := [];
    NothingLoaded(server);
    NobodyFound(id);
    for pageNumber := 0 to limit
      invariant Loading(server, pages, pageNumber, seenCursors, cursor) && FindMember(Concat(pages), id) == None
    {
      var answer := server(pageNumber, cursor);
      if answer.None? {
        forall whole ensures !Complete(server, whole, limit) {
          NoListing(server, pages, pageNumber, seenCursors, cursor, whole, limit);
        }
        return None;
      }
      var page := answer.value;
      ConcatOn(pages, page);
      FindInConcat(Concat(pages), page.items, id);
      LoadingOn(server, pages, pageNumber, seenCursors, cursor, page, limit);
      ChainOfLoading(server, pages, pageNumber, seenCursors, cursor, page);
      var found := FindMember(page.items, id);
      if found.Some? {
        forall whole | Complete(server, whole, limit)
          ensures FindMember(Concat(whole), id) == FindMember(Concat(pages + [page]), id)
        {
          FoundEarly(server, pages, pageNumber, seenCursors, cursor, page, id, whole, limit);
        }
        return Some(RoleOf(found));
      }
      if page.next.None? {
        forall other | Complete(server, other, limit) ensures other == pages + [page] {
          CompleteUnique(server, other, pages + [page], limit, limit);
        }
        return Some(Viewer);
      }
      if page.next.value in seenCursors {
        forall whole ensures !Complete(server, whole, limit) {
          RepeatedCursor(server, pages, pageNumber, seenCursors, cursor, page, whole, limit);
        }
        return None;
      }
      seenCursors := seenCursors + {page.next.value};
      cursor := page.next;
      pages := pages + [page];
    }
    forall whole ensures !Complete(server, whole, limit) {
      NoListing(server, pages, limit, seenCursors, cursor, whole, limit);
    }
    return None;
  }

  lemma NobodyFound(id: string) ensures FindMember([], id) == None {}

  /** The member found on this page is the first in any listing that continues it. */
  lemma FoundEarly(server: Server<Member>, pages: seq<Page<Member>>, n: nat, seen: set<Cursor>, cursor: Option<Cursor>,
                   page: Page<Member>, id: string, whole: seq<Page<Member>>, limit: nat)
    requires Loading(server, pages, n, seen, cursor) && server(n, cursor) == Some(page) && Complete(server, whole, limit)
    requires FindMember(Concat(pages + [page]), id).Some?
    ensures FindMember(Concat(whole), id) == FindMember(Concat(pages + [page]), id)
  {
    PageOfListing(server, pages, n, seen, cursor, page, whole, limit);
    var part := Concat(pages + [page]);
    assert Concat(whole) == part + Concat(whole)[|part|..];
    FindInConcat(part, Concat(whole)[|part|..], id);
  }
}
