/** Keyset pagination of the job and outbox listings.

    A page holds the first rows, newest first, that come after a cursor; the cursor names the last
    row of the page before.  The main theorems say that following cursors refines the plain sorted
    listing, also while newer rows keep arriving. */
module Pagination {
  import opened Wrappers

  /** A stored row: its sort key (identifiers of one length compare like numbers) and the rest. */
  datatype Row = Row(createdAt: int, id: nat, data: nat)

  datatype Key = Key(createdAt: int, id: nat)

  function KeyOf(r: Row): Key {
    Key(r.createdAt, r.id)
  }

  /** created_at descending, then identifier descending. */
  predicate Precedes(a: Key, b: Key) {
    a.createdAt > b.createdAt || (a.createdAt == b.createdAt && a.id > b.id)
  }

  ghost predicate DistinctKeys(rows: seq<Row>) {
    forall i, j :: 0 <= i < j < |rows| ==> KeyOf(rows[i]) != KeyOf(rows[j])
  }

  ghost predicate Descending(rows: seq<Row>) {
    forall i, j :: 0 <= i < j < |rows| ==> Precedes(KeyOf(rows[i]), KeyOf(rows[j]))
  }

  function Filter(rows: seq<Row>, keep: Row -> bool): seq<Row> {
    if rows == [] then [] else (if keep(rows[0]) then [rows[0]] else []) + Filter(rows[1..], keep)
  }

  function Insert(r: Row, sorted: seq<Row>): seq<Row> {
    if sorted == [] || Precedes(KeyOf(r), KeyOf(sorted[0])) then [r] + sorted
    else [sorted[0]] + Insert(r, sorted[1..])
  }

  /** ORDER BY created_at DESC, id DESC. */
  function Sort(rows: seq<Row>): seq<Row> {
    if rows == [] then [] else Insert(rows[0], Sort(rows[1..]))
  }

  function Take(rows: seq<Row>, n: nat): seq<Row> {
    if |rows| <= n then rows else rows[..n]
  }

  // ---------------------------------------------------------------- the cursor

  /** The codec of a cursor text: JSON and the URL-safe base64 alphabet, with padding. */
  datatype Codec = Codec(encode: Key -> string, decode: string -> Option<Key>)

  /** The last n characters of t, and no more, are padding. */
  predicate PaddedBy(t: string, n: nat) {
    n < |t| && t[|t| - n - 1] != '=' && forall i :: |t| - n <= i < |t| ==> t[i] == '='
  }

  /** Padded base64: whole groups of four, with at most two padding characters, at the end. */
  predicate IsPadded(t: string) {
    |t| % 4 == 0 && (PaddedBy(t, 0) || PaddedBy(t, 1) || PaddedBy(t, 2))
  }

  /** The key is encoded as padded text that decodes to it. */
  ghost predicate EncodesKey(c: Codec, k: Key) {
    IsPadded(c.encode(k)) && c.decode(c.encode(k)) == Some(k)
  }

  ghost predicate ValidCodec(c: Codec) {
    forall k :: EncodesKey(c, k)
  }

  function StripPadding(t: string): string {
    if t != "" && t[|t| - 1] == '=' then StripPadding(t[..|t| - 1]) else t
  }

  function Padding(n: nat): string {
    if n == 0 then "" else Padding(n - 1) + "="
  }

  function Pad(t: string): string {
    t + Padding(-|t| % 4)
  }

  function EncodeCursor(c: Codec, k: Key): string {
    StripPadding(c.encode(k))
  }

  function DecodeCursor(c: Codec, cursor: string): Option<Key> {
    c.decode(Pad(cursor))
  }

  lemma {:induction false} StripsToBody(t: string, n: nat)
    requires PaddedBy(t, n)
    ensures StripPadding(t) == t[..|t| - n]
    decreases n
  {
    if n > 0 {
      var shorter := t[..|t| - 1];
      StripsToBody(shorter, n - 1);
      assert shorter[..|t| - n] == t[..|t| - n];
    }
  }

  lemma {:induction false} PaddingText(n: nat)
    ensures |Padding(n)| == n && forall i :: 0 <= i < n ==> Padding(n)[i] == '='
  {
    if n > 0 {
      PaddingText(n - 1);
    }
  }

  lemma PaddingLength(m: nat, n: nat)
    requires m % 4 == 0 && n <= 2 && n <= m
    ensures -(m - n) % 4 == n
  {
  }

  /** Dropping the padding and restoring it from the length loses nothing. */
  lemma PaddingIsRedundant(t: string)
    requires IsPadded(t)
    ensures StripPadding(t) != "" && Pad(StripPadding(t)) == t
  {
    var n := if PaddedBy(t, 0) then 0 else if PaddedBy(t, 1) then 1 else 2;
    StripsToBody(t, n);
    PaddingLength(|t|, n);
    PaddingText(n);
    assert t == t[..|t| - n] + t[|t| - n..];
    assert t[|t| - n..] == Padding(n);
  }

  lemma CursorRoundTrip(c: Codec, k: Key)
    requires ValidCodec(c)
    ensures EncodeCursor(c, k) != "" && DecodeCursor(c, EncodeCursor(c, k)) == Some(k)
  {
    assert EncodesKey(c, k);
    PaddingIsRedundant(c.encode(k));
  }

  // ---------------------------------------------------------------- one page

  datatype Page = Page(items: seq<Row>, total: nat, nextCursor: Option<string>)

  datatype PageError = InvalidCursor

  /** The cursor condition of the query: rows that come after the key. */
  function After(rows: seq<Row>, key: Key): seq<Row> {
    if rows == [] then []
    else (if Precedes(key, KeyOf(rows[0])) then [rows[0]] else []) + After(rows[1..], key)
  }

  /** The matching rows that a decoded cursor leaves. */
  function Remaining(rows: seq<Row>, keep: Row -> bool, after: Option<Key>): seq<Row> {
    if after.None? then Filter(rows, keep) else After(Filter(rows, keep), after.value)
  }

  function PageAfter(c: Codec, rows: seq<Row>, keep: Row -> bool, after: Option<Key>, limit: nat): Page {
    var fetched := Take(Sort(Remaining(rows, keep, after)), limit + 1);
    var items := Take(fetched, limit);
    Page(items, |Filter(rows, keep)|,
         if |fetched| > limit && items != [] then Some(EncodeCursor(c, KeyOf(items[|items| - 1]))) else None)
  }

  /** list_jobs and list_outbox_events; an absent or empty cursor starts at the top. */
  function ListRows(c: Codec, rows: seq<Row>, keep: Row -> bool, cursor: Option<string>, limit: nat)
    : Result<Page, PageError>
  {
    if cursor.None? || cursor.value == "" then Ok(PageAfter(c, rows, keep, None, limit))
    else
      match DecodeCursor(c, cursor.value)
      case None => Err(InvalidCursor)
      case Some(k) => Ok(PageAfter(c, rows, keep, Some(k), limit))
  }

  /** A cursor is refused exactly when it is given, not empty, and does not decode. */
  lemma CursorRefusedIff(c: Codec, rows: seq<Row>, keep: Row -> bool, cursor: Option<string>, limit: nat)
    ensures ListRows(c, rows, keep, cursor, limit).Err? <==>
            cursor.Some? && cursor.value != "" && DecodeCursor(c, cursor.value).None?
  {
  }

  // ---------------------------------------------------------------- sorting

  lemma {:induction false} InsertAdds(r: Row, sorted: seq<Row>)
    ensures multiset(Insert(r, sorted)) == multiset{r} + multiset(sorted)
  {
    if sorted != [] && !Precedes(KeyOf(r), KeyOf(sorted[0])) {
      InsertAdds(r, sorted[1..]);
      assert sorted == [sorted[0]] + sorted[1..];
    }
  }

  lemma DescendingCons(head: Row, rest: seq<Row>)
    requires Descending(rest) && forall x :: x in rest ==> Precedes(KeyOf(head), KeyOf(x))
    ensures Descending([head] + rest)
  {
  }

  lemma {:induction false} InsertKeepsDescending(r: Row, sorted: seq<Row>)
    requires Descending(sorted) && forall x :: x in sorted ==> KeyOf(x) != KeyOf(r)
    ensures Descending(Insert(r, sorted))
  {
    if sorted == [] || Precedes(KeyOf(r), KeyOf(sorted[0])) {
      DescendingCons(r, sorted);
    } else {
      var rest := Insert(r, sorted[1..]);
      InsertKeepsDescending(r, sorted[1..]);
      InsertAdds(r, sorted[1..]);
      forall x | x in rest
        ensures Precedes(KeyOf(sorted[0]), KeyOf(x))
      {
        assert x in multiset(rest);
      }
      DescendingCons(sorted[0], rest);
    }
  }

  lemma {:induction false} SortSorts(rows: seq<Row>)
    requires DistinctKeys(rows)
    ensures Descending(Sort(rows)) && multiset(Sort(rows)) == multiset(rows)
  {
    if rows != [] {
      SortSorts(rows[1..]);
      assert rows == [rows[0]] + rows[1..];
      forall x | x in Sort(rows[1..])
        ensures KeyOf(x) != KeyOf(rows[0])
      {
        assert x in multiset(rows[1..]);
        var j :| 0 <= j < |rows[1..]| && rows[1..][j] == x;
        assert rows[j + 1] == rows[1..][j];
      }
      InsertKeepsDescending(rows[0], Sort(rows[1..]));
      InsertAdds(rows[0], Sort(rows[1..]));
    }
  }

  lemma {:induction false} InsertLength(r: Row, sorted: seq<Row>)
    ensures |Insert(r, sorted)| == |sorted| + 1
  {
    if sorted != [] && !Precedes(KeyOf(r), KeyOf(sorted[0])) {
      InsertLength(r, sorted[1..]);
    }
  }

  lemma {:induction false} SortLength(rows: seq<Row>)
    ensures |Sort(rows)| == |rows|
  {
    if rows != [] {
      SortLength(rows[1..]);
      InsertLength(rows[0], Sort(rows[1..]));
    }
  }

  /** The first row of a descending list precedes all others. */
  lemma FirstPrecedes(a: seq<Row>, r: Row)
    requires Descending(a) && r in a
    ensures r == a[0] || Precedes(KeyOf(a[0]), KeyOf(r))
  {
    var i :| 0 <= i < |a| && a[i] == r;
  }

  /** So it is determined by the rows. */
  lemma SameFirst(a: seq<Row>, b: seq<Row>)
    requires Descending(a) && Descending(b) && multiset(a) == multiset(b) && a != [] && b != []
    ensures a[0] == b[0]
  {
    assert a[0] in multiset(b) && b[0] in multiset(a);
    FirstPrecedes(a, b[0]);
    FirstPrecedes(b, a[0]);
  }

  lemma SameTails(a: seq<Row>, b: seq<Row>)
    requires multiset(a) == multiset(b) && a != [] && b != [] && a[0] == b[0]
    ensures multiset(a[1..]) == multiset(b[1..])
  {
    assert a == [a[0]] + a[1..] && b == [b[0]] + b[1..];
    assert multiset(a[1..]) == multiset(a) - multiset{a[0]};
    assert multiset(b[1..]) == multiset(b) - multiset{b[0]};
  }

  /** A descending list is determined by its rows. */
  lemma {:induction false} DescendingIsUnique(a: seq<Row>, b: seq<Row>)
    requires Descending(a) && Descending(b) && multiset(a) == multiset(b)
    ensures a == b
  {
    assert |multiset(a)| == |a| && |multiset(b)| == |b|;
    if a != [] {
      SameFirst(a, b);
      SameTails(a, b);
      DescendingIsUnique(a[1..], b[1..]);
      assert a == [a[0]] + a[1..] && b == [b[0]] + b[1..];
    }
  }

  lemma {:induction false} FilterCounts(rows: seq<Row>, keep: Row -> bool)
    ensures forall r :: multiset(Filter(rows, keep))[r] == if keep(r) then multiset(rows)[r] else 0
  {
    if rows != [] {
      FilterCounts(rows[1..], keep);
      assert rows == [rows[0]] + rows[1..];
    }
  }

  lemma {:induction false} FilterKeepsDistinct(rows: seq<Row>, keep: Row -> bool)
    requires DistinctKeys(rows)
    ensures DistinctKeys(Filter(rows, keep))
    ensures forall r :: r in Filter(rows, keep) <==> r in rows && keep(r)
  {
    if rows != [] {
      var rest := rows[1..];
      DistinctTail(rows);
      FilterKeepsDistinct(rest, keep);
      HeadOrTail(rows);
    }
  }

  lemma HeadOrTail(rows: seq<Row>)
    requires rows != []
    ensures forall r :: r in rows <==> r == rows[0] || r in rows[1..]
  {
    assert rows == [rows[0]] + rows[1..];
  }

  lemma DistinctTail(rows: seq<Row>)
    requires DistinctKeys(rows) && rows != []
    ensures DistinctKeys(rows[1..])
    ensures forall r :: r in rows[1..] ==> KeyOf(r) != KeyOf(rows[0])
  {
    var rest := rows[1..];
    assert forall i :: 0 <= i < |rest| ==> rest[i] == rows[i + 1];
    forall r | r in rest
      ensures KeyOf(r) != KeyOf(rows[0])
    {
      var i :| 0 <= i < |rest| && rest[i] == r;
    }
  }

  lemma {:induction false} FilterConcat(a: seq<Row>, b: seq<Row>, keep: Row -> bool)
    ensures Filter(a + b, keep) == Filter(a, keep) + Filter(b, keep)
  {
    if a == [] {
      assert a + b == b;
    } else {
      var ab, head := a + b, if keep(a[0]) then [a[0]] else [];
      assert ab[1..] == a[1..] + b && ab[0] == a[0];
      FilterConcat(a[1..], b, keep);
      assert Filter(ab, keep) == head + (Filter(a[1..], keep) + Filter(b, keep));
    }
  }

  lemma {:induction false} AfterCounts(rows: seq<Row>, key: Key)
    ensures forall r :: multiset(After(rows, key))[r] == if Precedes(key, KeyOf(r)) then multiset(rows)[r] else 0
  {
    if rows != [] {
      AfterCounts(rows[1..], key);
      assert rows == [rows[0]] + rows[1..];
    }
  }

  lemma {:induction false} AfterKeepsOrder(rows: seq<Row>, key: Key)
    ensures DistinctKeys(rows) ==> DistinctKeys(After(rows, key))
    ensures Descending(rows) ==> Descending(After(rows, key))
    ensures forall r :: r in After(rows, key) ==> r in rows
  {
    if rows != [] {
      var rest := rows[1..];
      assert forall i :: 0 <= i < |rest| ==> rest[i] == rows[i + 1];
      AfterKeepsOrder(rest, key);
      forall r | r in rest
        ensures DistinctKeys(rows) ==> KeyOf(r) != KeyOf(rows[0])
        ensures Descending(rows) ==> Precedes(KeyOf(rows[0]), KeyOf(r))
      {
        var i :| 0 <= i < |rest| && rest[i] == r;
      }
    }
  }

  lemma AfterOfSameRows(a: seq<Row>, b: seq<Row>, key: Key)
    requires multiset(a) == multiset(b)
    ensures multiset(After(a, key)) == multiset(After(b, key))
  {
    AfterCounts(a, key);
    AfterCounts(b, key);
  }

  /** Dropping rows before or after sorting gives the same list. */
  lemma SortAfter(rows: seq<Row>, key: Key)
    requires DistinctKeys(rows)
    ensures Sort(After(rows, key)) == After(Sort(rows), key)
  {
    var kept, sorted := After(rows, key), Sort(rows);
    assert DistinctKeys(kept) by { AfterKeepsOrder(rows, key); }
    SortSorts(rows);
    SortSorts(kept);
    assert Descending(After(sorted, key)) by { AfterKeepsOrder(sorted, key); }
    AfterOfSameRows(rows, sorted, key);
    DescendingIsUnique(Sort(kept), After(sorted, key));
  }

  // ---------------------------------------------------------------- walking

  lemma {:induction false} AfterNone(rows: seq<Row>, key: Key)
    requires forall r :: r in rows ==> !Precedes(key, KeyOf(r))
    ensures After(rows, key) == []
  {
    if rows != [] {
      AfterNone(rows[1..], key);
    }
  }

  lemma {:induction false} AfterAll(rows: seq<Row>, key: Key)
    requires forall r :: r in rows ==> Precedes(key, KeyOf(r))
    ensures After(rows, key) == rows
  {
    if rows != [] {
      AfterAll(rows[1..], key);
    }
  }

  lemma {:induction false} AfterConcat(a: seq<Row>, b: seq<Row>, key: Key)
    ensures After(a + b, key) == After(a, key) + After(b, key)
  {
    if a == [] {
      assert a + b == b;
    } else {
      var ab, head := a + b, if Precedes(key, KeyOf(a[0])) then [a[0]] else [];
      assert ab[1..] == a[1..] + b && ab[0] == a[0];
      AfterConcat(a[1..], b, key);
      assert After(ab, key) == head + (After(a[1..], key) + After(b, key));
    }
  }

  /** In a descending list, the rows after the key of row i are those at higher indices. */
  lemma {:induction false} AfterIsSuffix(list: seq<Row>, i: nat)
    requires Descending(list) && i < |list|
    ensures After(list, KeyOf(list[i])) == list[i + 1..]
  {
    var key, rest := KeyOf(list[i]), list[1..];
    if i == 0 {
      AfterAll(rest, key);
    } else {
      assert Precedes(KeyOf(list[0]), key);
      AfterIsSuffix(rest, i - 1);
      assert rest[i - 1] == list[i] && rest[i..] == list[i + 1..];
    }
  }

  /** The plain listing: all matching rows, newest first. */
  function Listing(rows: seq<Row>, keep: Row -> bool): seq<Row> {
    Sort(Filter(rows, keep))
  }

  /** The added rows have keys of their own, newer than every base row's. */
  ghost predicate AllNewer(base: seq<Row>, added: seq<Row>) {
    && DistinctKeys(base + added)
    && forall r, x :: r in base && x in added ==> Precedes(KeyOf(x), KeyOf(r))
  }

  /** What a cursor leaves of a table is a suffix of the plain listing of its base rows, when every
      other row is newer than all of them. */
  lemma RemainingIsSuffix(base: seq<Row>, added: seq<Row>, keep: Row -> bool, i: nat)
    requires AllNewer(base, added) && i < |Listing(base, keep)|
    ensures Sort(Remaining(base + added, keep, Some(KeyOf(Listing(base, keep)[i])))) == Listing(base, keep)[i + 1..]
  {
    var list, kept, fresher := Listing(base, keep), Filter(base, keep), Filter(added, keep);
    var key := KeyOf(list[i]);
    DistinctParts(base, added);
    FilterKeepsDistinct(base, keep);
    FilterKeepsDistinct(added, keep);
    SortSorts(kept);
    assert list[i] in base by {
      assert list[i] in multiset(kept);
    }
    FilterConcat(base, added, keep);
    AfterConcat(kept, fresher, key);
    AfterNone(fresher, key);
    assert After(kept + fresher, key) == After(kept, key);
    SortAfter(kept, key);
    AfterIsSuffix(list, i);
  }

  lemma DistinctParts(a: seq<Row>, b: seq<Row>)
    requires DistinctKeys(a + b)
    ensures DistinctKeys(a) && DistinctKeys(b)
  {
    assert forall i :: 0 <= i < |a| ==> (a + b)[i] == a[i];
    assert forall i :: 0 <= i < |b| ==> (a + b)[|a| + i] == b[i];
  }

  /** Follow the cursors: page number k is read from the table that holds base and added[k]. */
  function Walk(c: Codec, base: seq<Row>, added: seq<seq<Row>>, keep: Row -> bool, cursor: Option<string>, limit: nat)
    : (seq<Row>, bool)
  {
    if added == [] then ([], false)
    else
      match ListRows(c, base + added[0], keep, cursor, limit)
      case Err(_) => ([], false)
      case Ok(page) =>
        if page.nextCursor.None? then (page.items, true)
        else
          var (items, finished) := Walk(c, base, added[1..], keep, page.nextCursor, limit);
          (page.items + items, finished)
  }

  /** Every table of the walk keeps the base rows and adds only rows newer than all of them. */
  ghost predicate OnlyNewerArrive(base: seq<Row>, added: seq<seq<Row>>) {
    forall k :: 0 <= k < |added| ==> AllNewer(base, added[k])
  }

  /** A page is the head of the rows that its cursor leaves, and its next cursor names its last row. */
  lemma PageIsHead(c: Codec, rows: seq<Row>, keep: Row -> bool, after: Option<Key>, limit: nat, rest: seq<Row>)
    requires Sort(Remaining(rows, keep, after)) == rest && limit >= 1
    ensures PageAfter(c, rows, keep, after, limit).items == Take(rest, limit)
    ensures PageAfter(c, rows, keep, after, limit).nextCursor ==
            if |rest| > limit then Some(EncodeCursor(c, KeyOf(rest[limit - 1]))) else None
  {
    HeadOfHead(rest, limit);
  }

  /** One row more than the page is fetched, to see whether there is another page. */
  lemma HeadOfHead(rest: seq<Row>, limit: nat)
    requires limit >= 1
    ensures var fetched := Take(rest, limit + 1);
            && Take(fetched, limit) == Take(rest, limit)
            && (|fetched| > limit <==> |rest| > limit)
            && (|rest| > limit ==> |Take(rest, limit)| == limit && Take(rest, limit)[limit - 1] == rest[limit - 1])
  {
    if |rest| > limit {
      assert rest[..limit + 1][..limit] == rest[..limit];
    }
  }

  /** This many pages hold n rows; even no rows take one page to say so. */
  predicate EnoughPages(pages: nat, limit: nat, n: nat) {
    pages > 0 && (n <= limit || EnoughPages(pages - 1, limit, n - limit))
  }

  lemma {:induction false} EnoughPagesIff(pages: nat, limit: nat, n: nat)
    requires pages > 0
    ensures EnoughPages(pages, limit, n) <==> n <= pages * limit
  {
    assert pages * limit == (pages - 1) * limit + limit;
    if pages == 1 {
      assert (pages - 1) * limit == 0;
    } else if n > limit {
      EnoughPagesIff(pages - 1, limit, n - limit);
    } else {
      assert (pages - 1) * limit >= 0;
    }
  }

  /** The page that the cursor of row i selects: the next limit rows of the plain listing. */
  lemma PageAtCursor(c: Codec, base: seq<Row>, added: seq<Row>, keep: Row -> bool, i: nat, limit: nat)
    requires ValidCodec(c) && limit >= 1 && AllNewer(base, added)
    requires i < |Listing(base, keep)|
    ensures var list := Listing(base, keep);
            var r := ListRows(c, base + added, keep, Some(EncodeCursor(c, KeyOf(list[i]))), limit);
            && r.Ok? && r.value.total == |Listing(base + added, keep)|
            && r.value.items == Take(list[i + 1..], limit)
            && r.value.nextCursor ==
               if |list| - i - 1 > limit then Some(EncodeCursor(c, KeyOf(list[i + limit]))) else None
  {
    var list := Listing(base, keep);
    CursorRoundTrip(c, KeyOf(list[i]));
    RemainingIsSuffix(base, added, keep, i);
    SortLength(Filter(base + added, keep));
    PageIsHead(c, base + added, keep, Some(KeyOf(list[i])), limit, list[i + 1..]);
  }

  /** The page that no cursor selects. */
  lemma FirstPage(c: Codec, base: seq<Row>, keep: Row -> bool, limit: nat)
    requires limit >= 1
    ensures var list := Listing(base, keep);
            var r := ListRows(c, base, keep, None, limit);
            && r.Ok? && r.value.total == |list|
            && r.value.items == Take(list, limit)
            && r.value.nextCursor == if |list| > limit then Some(EncodeCursor(c, KeyOf(list[limit - 1]))) else None
  {
    SortLength(Filter(base, keep));
    PageIsHead(c, base, keep, None, limit, Listing(base, keep));
  }

  /** The rest of a walk from a list of rows still to show. */
  ghost predicate Shows(walked: (seq<Row>, bool), rest: seq<Row>, pages: nat, limit: nat) {
    && walked.0 <= rest
    && (walked.1 ==> walked.0 == rest)
    && (EnoughPages(pages, limit, |rest|) ==> walked.1)
  }

  lemma PageThenRest(rest: seq<Row>, walked: (seq<Row>, bool), pages: nat, limit: nat)
    requires limit >= 1 && |rest| > limit && Shows(walked, rest[limit..], pages, limit)
    ensures Shows((rest[..limit] + walked.0, walked.1), rest, pages + 1, limit)
  {
    assert rest == rest[..limit] + rest[limit..];
  }

  /** A walk whose first page is the head of the rest, and whose later pages show what then remains. */
  lemma WalkPage(c: Codec, base: seq<Row>, added: seq<seq<Row>>, keep: Row -> bool, cursor: Option<string>,
                 next: Option<string>, limit: nat, rest: seq<Row>)
    requires added != [] && limit >= 1 && (next.None? <==> |rest| <= limit)
    requires var r := ListRows(c, base + added[0], keep, cursor, limit);
             r.Ok? && r.value.items == Take(rest, limit) && r.value.nextCursor == next
    requires |rest| > limit ==>
               Shows(Walk(c, base, added[1..], keep, next, limit), rest[limit..], |added| - 1, limit)
    ensures Shows(Walk(c, base, added, keep, cursor, limit), rest, |added|, limit)
  {
    if |rest| > limit {
      PageThenRest(rest, Walk(c, base, added[1..], keep, next, limit), |added| - 1, limit);
    }
  }

  lemma NewerHead(base: seq<Row>, added: seq<seq<Row>>)
    requires OnlyNewerArrive(base, added) && added != []
    ensures AllNewer(base, added[0])
  {
  }

  lemma NewerTail(base: seq<Row>, added: seq<seq<Row>>)
    requires OnlyNewerArrive(base, added) && added != []
    ensures OnlyNewerArrive(base, added[1..])
  {
    forall k | 0 <= k < |added[1..]|
      ensures AllNewer(base, added[1..][k])
    {
      assert AllNewer(base, added[k + 1]);
    }
  }

  /** One step of the walk, given what the later pages show. */
  lemma WalkFromRow(c: Codec, base: seq<Row>, added: seq<seq<Row>>, keep: Row -> bool, list: seq<Row>, i: nat,
                    limit: nat)
    requires ValidCodec(c) && limit >= 1 && added != [] && OnlyNewerArrive(base, added)
    requires list == Listing(base, keep) && i < |list|
    requires i + limit < |list| - 1 ==>
               Shows(Walk(c, base, added[1..], keep, Some(EncodeCursor(c, KeyOf(list[i + limit]))), limit),
                     list[i + limit + 1..], |added| - 1, limit)
    ensures Shows(Walk(c, base, added, keep, Some(EncodeCursor(c, KeyOf(list[i]))), limit),
                  list[i + 1..], |added|, limit)
  {
    var rest, cursor := list[i + 1..], Some(EncodeCursor(c, KeyOf(list[i])));
    var next := if |rest| > limit then Some(EncodeCursor(c, KeyOf(list[i + limit]))) else None;
    if |rest| > limit {
      assert rest[limit..] == list[i + limit + 1..];
    }
    NewerHead(base, added);
    PageAtCursor(c, base, added[0], keep, i, limit);
    WalkPage(c, base, added, keep, cursor, next, limit, rest);
  }

  /** From the cursor of row i on, the walk returns the rest of the plain listing. */
  lemma {:induction false} WalkContinues(c: Codec, base: seq<Row>, added: seq<seq<Row>>, keep: Row -> bool,
                                         list: seq<Row>, i: nat, limit: nat)
    requires ValidCodec(c) && OnlyNewerArrive(base, added) && limit >= 1
    requires list == Listing(base, keep) && i < |list|
    ensures Shows(Walk(c, base, added, keep, Some(EncodeCursor(c, KeyOf(list[i]))), limit),
                  list[i + 1..], |added|, limit)
    decreases |added|
  {
    if added != [] {
      if i + limit < |list| - 1 {
        assert Shows(Walk(c, base, added[1..], keep, Some(EncodeCursor(c, KeyOf(list[i + limit]))), limit),
                     list[i + limit + 1..], |added| - 1, limit) by {
          NewerTail(base, added);
          WalkContinues(c, base, added[1..], keep, list, i + limit, limit);
          assert |added[1..]| == |added| - 1;
        }
      }
      WalkFromRow(c, base, added, keep, list, i, limit);
    }
  }

  /** Main theorem: following next_cursor until it is null yields exactly the matching rows, newest
      first, each once, and ends within one page per limit rows; rows that arrive during the walk and
      are newer than every row it started from are neither shown nor cause a repeat or an omission. */
  lemma WalkRefinesListing(c: Codec, base: seq<Row>, added: seq<seq<Row>>, keep: Row -> bool, limit: nat)
    requires ValidCodec(c) && OnlyNewerArrive(base, added) && limit >= 1
    requires added != [] && added[0] == []
    ensures var walked, list := Walk(c, base, added, keep, None, limit), Listing(base, keep);
            && walked.0 <= list
            && (walked.1 ==> walked.0 == list)
            && (|added| * limit >= |list| ==> walked.1)
  {
    WalkShowsListing(c, base, added, keep, limit - 1);
    ShowsAll(Walk(c, base, added, keep, None, limit), Listing(base, keep), |added|, limit);
  }

  lemma ShowsAll(walked: (seq<Row>, bool), list: seq<Row>, pages: nat, limit: nat)
    requires Shows(walked, list, pages, limit) && pages > 0
    ensures walked.0 <= list && (walked.1 ==> walked.0 == list) && (pages * limit >= |list| ==> walked.1)
  {
    EnoughPagesIff(pages, limit, |list|);
  }

  /** The pages of i + 1 rows. */
  lemma WalkShowsListing(c: Codec, base: seq<Row>, added: seq<seq<Row>>, keep: Row -> bool, i: nat)
    requires ValidCodec(c) && OnlyNewerArrive(base, added)
    requires added != [] && added[0] == []
    ensures Shows(Walk(c, base, added, keep, None, i + 1), Listing(base, keep), |added|, i + 1)
  {
    NewerTail(base, added);
    LaterPages(c, base, added[1..], keep, Listing(base, keep), i, i + 1);
    WalkFromStart(c, base, added, keep, Listing(base, keep), i);
  }

  /** After a first page that ends with row i the walk over later pages shows the rest of the list. */
  ghost predicate ShowsAfterFirst(c: Codec, base: seq<Row>, later: seq<seq<Row>>, keep: Row -> bool, list: seq<Row>,
                                  i: nat, limit: nat)
  {
    i + 1 < |list| ==>
      Shows(Walk(c, base, later, keep, Some(EncodeCursor(c, KeyOf(list[i]))), limit), list[i + 1..], |later|, limit)
  }

  lemma LaterPages(c: Codec, base: seq<Row>, later: seq<seq<Row>>, keep: Row -> bool, list: seq<Row>, i: nat,
                   limit: nat)
    requires ValidCodec(c) && OnlyNewerArrive(base, later) && limit >= 1 && list == Listing(base, keep)
    ensures ShowsAfterFirst(c, base, later, keep, list, i, limit)
  {
    if i + 1 < |list| {
      WalkContinues(c, base, later, keep, list, i, limit);
    }
  }

  /** The first step of a walk, given what the later pages show; i is the last row of its page. */
  lemma WalkFromStart(c: Codec, base: seq<Row>, added: seq<seq<Row>>, keep: Row -> bool, list: seq<Row>, i: nat)
    requires added != [] && added[0] == [] && list == Listing(base, keep)
    requires ShowsAfterFirst(c, base, added[1..], keep, list, i, i + 1)
    ensures Shows(Walk(c, base, added, keep, None, i + 1), list, |added|, i + 1)
  {
    var next := if |list| > i + 1 then Some(EncodeCursor(c, KeyOf(list[i]))) else None;
    assert base + added[0] == base;
    FirstPage(c, base, keep, i + 1);
    WalkPage(c, base, added, keep, None, next, i + 1, list);
  }

  /** The plain listing holds each matching row exactly as often as the table, in descending order. */
  lemma ListingIsSorted(rows: seq<Row>, keep: Row -> bool)
    requires DistinctKeys(rows)
    ensures Descending(Listing(rows, keep))
    ensures forall r :: multiset(Listing(rows, keep))[r] == if keep(r) then multiset(rows)[r] else 0
  {
    FilterKeepsDistinct(rows, keep);
    SortSorts(Filter(rows, keep));
    FilterCounts(rows, keep);
  }

  // ---------------------------------------------------------------- rows that arrive anywhere

  predicate ComesAfter(after: Option<Key>, r: Row) {
    after.Some? ==> Precedes(after.value, KeyOf(r))
  }

  predicate Matches(rows: seq<Row>, keep: Row -> bool, r: Row) {
    r in rows && keep(r)
  }

  function CursorOf(c: Codec, after: Option<Key>): Option<string> {
    if after.None? then None else Some(EncodeCursor(c, after.value))
  }

  function LastOf(added: seq<seq<Row>>): seq<Row>
    requires added != []
  {
    added[|added| - 1]
  }

  ghost predicate Keeps(rows: seq<Row>, later: seq<Row>) {
    forall r :: r in rows ==> r in later
  }

  /** Between two pages rows may arrive, with keys of their own that sort anywhere; none goes. */
  ghost predicate RowsStay(base: seq<Row>, added: seq<seq<Row>>) {
    added == []
    || (&& DistinctKeys(base + added[0])
        && (|added| > 1 ==> Keeps(added[0], added[1]))
        && RowsStay(base, added[1..]))
  }

  lemma {:induction false} StaysToLast(base: seq<Row>, added: seq<seq<Row>>, r: Row)
    requires RowsStay(base, added) && added != [] && r in base + added[0]
    ensures r in base + LastOf(added)
  {
    if |added| > 1 {
      StaysToLast(base, added[1..], r);
    }
  }

  lemma {:induction false} LastIsDistinct(base: seq<Row>, added: seq<seq<Row>>)
    requires RowsStay(base, added) && added != []
    ensures DistinctKeys(base + LastOf(added))
  {
    if |added| > 1 {
      LastIsDistinct(base, added[1..]);
    }
  }

  /** The list that a page is the head of: the matching rows after its cursor, newest first. */
  ghost predicate IsRemainder(list: seq<Row>, rows: seq<Row>, keep: Row -> bool, after: Option<Key>) {
    Descending(list) && forall r :: r in list <==> Matches(rows, keep, r) && ComesAfter(after, r)
  }

  lemma AfterMembers(rows: seq<Row>, key: Key, r: Row)
    ensures r in After(rows, key) <==> r in rows && Precedes(key, KeyOf(r))
  {
    AfterCounts(rows, key);
    assert r in After(rows, key) <==> multiset(After(rows, key))[r] > 0;
    assert r in rows <==> multiset(rows)[r] > 0;
  }

  lemma RemainderOfTable(rows: seq<Row>, keep: Row -> bool, after: Option<Key>)
    requires DistinctKeys(rows)
    ensures IsRemainder(Sort(Remaining(rows, keep, after)), rows, keep, after)
  {
    var kept, left := Filter(rows, keep), Remaining(rows, keep, after);
    FilterKeepsDistinct(rows, keep);
    if after.Some? {
      AfterKeepsOrder(kept, after.value);
    }
    SortSorts(left);
    forall r
      ensures r in Sort(left) <==> Matches(rows, keep, r) && ComesAfter(after, r)
    {
      assert r in Sort(left) <==> r in multiset(left);
      if after.Some? {
        AfterMembers(kept, after.value, r);
      }
    }
  }

  ghost predicate Unshown(shown: seq<Row>, rows: seq<Row>, keep: Row -> bool, after: Option<Key>, r: Row) {
    Matches(rows, keep, r) && ComesAfter(after, r) && r !in shown
  }

  /** What the walk from a cursor on guarantees: no row twice, only matching rows, and at its end every
      row that its first page could have shown; a walk that has not ended showed full pages and has
      a row left to show. */
  ghost predicate Survives(walked: (seq<Row>, bool), base: seq<Row>, added: seq<seq<Row>>, keep: Row -> bool,
                           after: Option<Key>, limit: nat)
    requires added != []
  {
    && Descending(walked.0)
    && (forall r :: r in walked.0 ==> Matches(base + LastOf(added), keep, r) && ComesAfter(after, r))
    && (walked.1 ==>
          forall r :: Matches(base + added[0], keep, r) && ComesAfter(after, r) ==> r in walked.0)
    && (!walked.1 ==>
          && |walked.0| == |added| * limit
          && exists r :: Unshown(walked.0, base + LastOf(added), keep, after, r))
  }

  lemma LastPageSurvives(list: seq<Row>, base: seq<Row>, added: seq<seq<Row>>, keep: Row -> bool,
                         after: Option<Key>, limit: nat)
    requires RowsStay(base, added) && added != [] && IsRemainder(list, base + added[0], keep, after)
    ensures Survives((list, true), base, added, keep, after, limit)
  {
    forall r | r in list
      ensures r in base + LastOf(added)
    {
      StaysToLast(base, added, r);
    }
  }

  /** The walk is cut off after a page. */
  lemma CutPageSurvives(list: seq<Row>, base: seq<Row>, added: seq<seq<Row>>, keep: Row -> bool,
                        after: Option<Key>, limit: nat)
    requires |added| == 1 && 1 <= limit < |list| && IsRemainder(list, base + added[0], keep, after)
    ensures Survives((list[..limit], false), base, added, keep, after, limit)
  {
    var next := list[limit];
    NotAmongFirst(list, next, limit);
    assert Unshown(list[..limit], base + LastOf(added), keep, after, next);
  }

  lemma NotAmongFirst(list: seq<Row>, r: Row, n: nat)
    requires Descending(list) && 1 <= n <= |list| && Precedes(KeyOf(list[n - 1]), KeyOf(r))
    ensures r !in list[..n]
  {
    forall i | 0 <= i < n
      ensures list[i] != r
    {
      assert i < n - 1 ==> Precedes(KeyOf(list[i]), KeyOf(list[n - 1]));
    }
  }

  lemma HeadThenRest(list: seq<Row>, rest: seq<Row>, limit: nat)
    requires 1 <= limit <= |list| && Descending(list) && Descending(rest)
    requires forall r :: r in rest ==> Precedes(KeyOf(list[limit - 1]), KeyOf(r))
    ensures Descending(list[..limit] + rest)
  {
  }

  lemma OneMorePage(pages: nat, limit: nat)
    requires pages >= 1
    ensures (pages - 1) * limit + limit == pages * limit
  {
  }

  /** A full page, and a walk that survives from its last row on. */
  lemma PageThenWalkSurvives(list: seq<Row>, rest: (seq<Row>, bool), base: seq<Row>, added: seq<seq<Row>>,
                             keep: Row -> bool, after: Option<Key>, limit: nat)
    requires |added| > 1 && RowsStay(base, added) && 1 <= limit < |list|
    requires IsRemainder(list, base + added[0], keep, after)
    requires Survives(rest, base, added[1..], keep, Some(KeyOf(list[limit - 1])), limit)
    ensures Survives((list[..limit] + rest.0, rest.1), base, added, keep, after, limit)
  {
    var shown, key := list[..limit] + rest.0, KeyOf(list[limit - 1]);
    var last := base + LastOf(added);
    assert LastOf(added[1..]) == LastOf(added);
    HeadThenRest(list, rest.0, limit);
    assert ComesAfter(after, list[limit - 1]);
    forall r | r in shown
      ensures Matches(last, keep, r) && ComesAfter(after, r)
    {
      if r in list[..limit] {
        assert r in list;
        StaysToLast(base, added, r);
      }
    }
    if rest.1 {
      forall r | Matches(base + added[0], keep, r) && ComesAfter(after, r)
        ensures r in shown
      {
        var i :| 0 <= i < |list| && list[i] == r;
        if i < limit {
          assert list[..limit][i] == r;
        } else {
          assert Matches(base + added[1], keep, r) && ComesAfter(Some(key), r);
        }
      }
    } else {
      OneMorePage(|added|, limit);
      var r :| Unshown(rest.0, last, keep, Some(key), r);
      NotAmongFirst(list, r, limit);
      assert Unshown(shown, last, keep, after, r);
    }
  }

  /** The page that a cursor selects, whatever rows have arrived. */
  lemma PageOfRemainder(c: Codec, rows: seq<Row>, keep: Row -> bool, after: Option<Key>, limit: nat, list: seq<Row>)
    requires ValidCodec(c) && limit >= 1 && list == Sort(Remaining(rows, keep, after))
    ensures var r := ListRows(c, rows, keep, CursorOf(c, after), limit);
            && r.Ok? && r.value.items == Take(list, limit)
            && r.value.nextCursor ==
               CursorOf(c, if |list| > limit then Some(KeyOf(list[limit - 1])) else None)
  {
    if after.Some? {
      CursorRoundTrip(c, after.value);
    }
    PageIsHead(c, rows, keep, after, limit, list);
  }

  lemma {:induction false} WalkSurvives(c: Codec, base: seq<Row>, added: seq<seq<Row>>, keep: Row -> bool,
                                        after: Option<Key>, limit: nat)
    requires ValidCodec(c) && RowsStay(base, added) && limit >= 1 && added != []
    ensures Survives(Walk(c, base, added, keep, CursorOf(c, after), limit), base, added, keep, after, limit)
    decreases |added|
  {
    var rows := base + added[0];
    var list := Sort(Remaining(rows, keep, after));
    RemainderOfTable(rows, keep, after);
    PageOfRemainder(c, rows, keep, after, limit, list);
    if |list| <= limit {
      LastPageSurvives(list, base, added, keep, after, limit);
    } else if |added| == 1 {
      CutPageSurvives(list, base, added, keep, after, limit);
      assert list[..limit] + [] == list[..limit];
    } else {
      var key := Some(KeyOf(list[limit - 1]));
      var rest := Walk(c, base, added[1..], keep, CursorOf(c, key), limit);
      WalkSurvives(c, base, added[1..], keep, key, limit);
      PageThenWalkSurvives(list, rest, base, added, keep, after, limit);
    }
  }

  /** A descending list holds no row twice. */
  lemma {:induction false} DescendingCountsOnce(list: seq<Row>, r: Row)
    requires Descending(list)
    ensures multiset(list)[r] == if r in list then 1 else 0
  {
    if list != [] {
      var rest := list[1..];
      DescendingCountsOnce(rest, r);
      assert list == [list[0]] + rest;
      assert list[0] !in rest;
    }
  }

  lemma SomeUnshownIsFewer(shown: seq<Row>, list: seq<Row>, missing: Row)
    requires Descending(shown) && (forall r :: r in shown ==> r in list)
    requires missing in list && missing !in shown
    ensures |shown| < |list|
  {
    forall r
      ensures (multiset(shown) + multiset{missing})[r] <= multiset(list)[r]
    {
      DescendingCountsOnce(shown, r);
      assert r in list ==> r in multiset(list);
    }
    assert multiset(shown) + multiset{missing} <= multiset(list);
    assert |multiset(list) - (multiset(shown) + multiset{missing})| + |shown| + 1 == |list|;
  }

  lemma ListingMembers(rows: seq<Row>, keep: Row -> bool, r: Row)
    requires DistinctKeys(rows)
    ensures r in Listing(rows, keep) <==> Matches(rows, keep, r)
  {
    ListingIsSorted(rows, keep);
    assert r in Listing(rows, keep) <==> r in multiset(Listing(rows, keep));
    assert r in rows <==> r in multiset(rows);
  }

  lemma FullPagesSuffice(walked: (seq<Row>, bool), base: seq<Row>, added: seq<seq<Row>>, keep: Row -> bool,
                         limit: nat)
    requires added != [] && RowsStay(base, added) && Survives(walked, base, added, keep, None, limit)
    ensures |added| * limit >= |Listing(base + LastOf(added), keep)| ==> walked.1
  {
    if !walked.1 {
      var last := base + LastOf(added);
      var missing :| Unshown(walked.0, last, keep, None, missing);
      LastIsDistinct(base, added);
      ListingMembers(last, keep, missing);
      forall r | r in walked.0
        ensures r in Listing(last, keep)
      {
        ListingMembers(last, keep, r);
      }
      SomeUnshownIsFewer(walked.0, Listing(last, keep), missing);
    }
  }

  /** Main theorem: while rows arrive anywhere in the order, following next_cursor shows no row twice,
      newest first, and only matching rows; when it ends, every matching row of the first table has been
      shown exactly once; and it ends at the latest when the pages hold the final listing. */
  lemma WalkSurvivesInsertions(c: Codec, base: seq<Row>, added: seq<seq<Row>>, keep: Row -> bool, limit: nat)
    requires ValidCodec(c) && RowsStay(base, added) && limit >= 1 && added != []
    ensures var walked := Walk(c, base, added, keep, None, limit);
            && Descending(walked.0)
            && (forall r :: r in walked.0 ==> Matches(base + LastOf(added), keep, r))
            && (forall r :: multiset(walked.0)[r] <= 1)
            && (walked.1 ==> forall r :: Matches(base + added[0], keep, r) ==> multiset(walked.0)[r] == 1)
            && (|added| * limit >= |Listing(base + LastOf(added), keep)| ==> walked.1)
  {
    var walked := Walk(c, base, added, keep, None, limit);
    WalkSurvives(c, base, added, keep, None, limit);
    FullPagesSuffice(walked, base, added, keep, limit);
    forall r
      ensures multiset(walked.0)[r] == if r in walked.0 then 1 else 0
    {
      DescendingCountsOnce(walked.0, r);
    }
  }
}
