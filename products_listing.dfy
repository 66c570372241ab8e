/**
 * The product page's data pipeline (products.js): database rows and static
 * catalogue items mapped to one entry shape, the static items filtered by the
 * search box, the two groups concatenated, the add-to-cart payload of each
 * card, and the suggestion dropdown.
 */
module ProductListing {
  import opened Wrappers
  import opened JsText
  import opened JsValues
  import opened Catalog
  import Seqs
  import ClientCart

  datatype Source = Db | Static

  /** What an entry's `id` string is built from: a database row id, or a static item's position and image. */
  datatype EntryKey = DbKey(rowId: int) | StaticKey(position: nat, image: string)

  /** The `id` string of a card: `db-<row id>` (line 44) or `static-<position>-<image>` (line 60). */
  function IdText(k: EntryKey): string {
    match k
    case DbKey(n) => "db-" + IntToString(n)
    case StaticKey(i, img) => "static-" + NatToString(i) + "-" + img
  }

  /** The unified shape built at products.js:41-65. A static entry has no `backendId` and no `priceKobo`. */
  datatype Entry = Entry(source: Source, backendId: Option<int>, key: EntryKey, name: Option<string>,
                         category: string, image: string, priceKobo: Option<int>, priceNaira: int)

  /** Lines 41-50: one database row. */
  function DbEntry(p: Product): (e: Entry)
    ensures e.source == Db && e.backendId == Some(p.id) && e.priceKobo == Some(p.price)
    ensures e.key == DbKey(p.id)
    ensures 100 * e.priceNaira - 50 <= p.price < 100 * e.priceNaira + 50
  {
    Entry(Db, Some(p.id), DbKey(p.id), Some(p.name), p.category, p.image, Some(p.price), RoundDiv100(p.price))
  }

  /** Lines 57-65: the static item at position `idx` among the kept ones. */
  function StaticEntry(s: StaticItem, idx: nat): (e: Entry)
    ensures e.source == Static && e.backendId.None? && e.priceKobo.None?
    ensures e.image == s.image.GetOr("") && e.key == StaticKey(idx, s.image.GetOr(""))
    ensures e.priceNaira == OrZero(s.price)
  {
    Entry(Static, None, StaticKey(idx, s.image.GetOr("")), s.name,
          s.category.GetOr(""), s.image.GetOr(""), None, OrZero(s.price))
  }

  /** `dbProducts.map(...)`: one entry per row, in row order. */
  function DbEntries(rows: seq<Product>): (r: seq<Entry>)
    ensures |r| == |rows|
    ensures forall k :: 0 <= k < |r| ==> r[k] == DbEntry(rows[k])
  {
    if rows == [] then [] else DbEntries(rows[..|rows| - 1]) + [DbEntry(rows[|rows| - 1])]
  }

  /** `.map((s, idx) => ...)`: each kept item numbered by its position among the kept items. */
  function StaticEntries(kept: seq<StaticItem>): (r: seq<Entry>)
    ensures |r| == |kept|
    ensures forall k :: 0 <= k < |r| ==> r[k] == StaticEntry(kept[k], k)
  {
    if kept == [] then [] else StaticEntries(kept[..|kept| - 1]) + [StaticEntry(kept[|kept| - 1], |kept| - 1)]
  }

  /** The lowercase name or category of a static item contains `q`. */
  predicate StaticMatches(s: StaticItem, q: string) {
    Includes(Lower(s.name.GetOr("")), q) || Includes(Lower(s.category.GetOr("")), q)
  }

  /** Lines 53-57: an empty query keeps every item, otherwise an item is kept exactly when it matches. */
  predicate KeptBy(s: StaticItem, q: string) {
    q == "" || StaticMatches(s, q)
  }

  /** The search box value trimmed and lowercased, as line 53 reads it. */
  function QueryOf(input: string): string {
    Lower(Trim(input))
  }

  /** The kept static items, in catalogue order. */
  function KeptStatics(statics: seq<StaticItem>, input: string): seq<StaticItem> {
    Seqs.Filter(statics, (s: StaticItem) => KeptBy(s, QueryOf(input)))
  }

  /** Line 68: `[...dbMapped, ...staticFiltered]`. */
  function Merged(rows: seq<Product>, statics: seq<StaticItem>, input: string): seq<Entry> {
    DbEntries(rows) + StaticEntries(KeptStatics(statics, input))
  }

  /** The merged list is every database row first, in order, then every kept static item, in order. */
  lemma MergedLayout(rows: seq<Product>, statics: seq<StaticItem>, input: string)
    ensures |Merged(rows, statics, input)| == |rows| + |KeptStatics(statics, input)|
    ensures forall k :: 0 <= k < |rows| ==> Merged(rows, statics, input)[k] == DbEntry(rows[k])
    ensures forall k :: 0 <= k < |KeptStatics(statics, input)| ==>
              Merged(rows, statics, input)[|rows| + k] == StaticEntry(KeptStatics(statics, input)[k], k)
  {
    var kept := KeptStatics(statics, input);
    assert Merged(rows, statics, input) == DbEntries(rows) + StaticEntries(kept);
    Layout(rows, kept);
  }

  /** `MergedLayout` for any list of kept items. */
  lemma Layout(rows: seq<Product>, kept: seq<StaticItem>)
    ensures |DbEntries(rows) + StaticEntries(kept)| == |rows| + |kept|
    ensures forall k :: 0 <= k < |rows| ==> (DbEntries(rows) + StaticEntries(kept))[k] == DbEntry(rows[k])
    ensures forall k :: 0 <= k < |kept| ==> (DbEntries(rows) + StaticEntries(kept))[|rows| + k] == StaticEntry(kept[k], k)
  {
    var d, t := DbEntries(rows), StaticEntries(kept);
    forall k | 0 <= k < |rows|
      ensures (d + t)[k] == DbEntry(rows[k])
    {
      assert (d + t)[k] == d[k];
    }
    forall k | 0 <= k < |kept|
      ensures (d + t)[|rows| + k] == StaticEntry(kept[k], k)
    {
      assert (d + t)[|d| + k] == t[k];
    }
  }

  /** A static item is listed exactly when the query is empty or the item matches it. */
  lemma KeptStaticsExactly(statics: seq<StaticItem>, input: string)
    ensures forall k :: 0 <= k < |KeptStatics(statics, input)| ==>
              KeptStatics(statics, input)[k] in statics && KeptBy(KeptStatics(statics, input)[k], QueryOf(input))
    ensures forall k :: 0 <= k < |statics| && KeptBy(statics[k], QueryOf(input)) ==> statics[k] in KeptStatics(statics, input)
  {
  }

  /** With an empty or blank search box every static item is listed. */
  lemma BlankQueryKeepsAll(statics: seq<StaticItem>, input: string)
    requires Trim(input) == ""
    ensures KeptStatics(statics, input) == statics
  {
    Seqs.FilterAll(statics, (s: StaticItem) => KeptBy(s, QueryOf(input)));
  }

  // Entry ids.

  lemma DbIdsDistinct(a: int, b: int)
    requires a != b
    ensures "db-" + IntToString(a) != "db-" + IntToString(b)
  {
    if "db-" + IntToString(a) == "db-" + IntToString(b) {
      assert ("db-" + IntToString(a))[3..] == IntToString(a);
      assert ("db-" + IntToString(b))[3..] == IntToString(b);
      IntToStringInjective(a, b);
    }
  }

  /** The first hyphen after "static-" ends the number, so distinct positions give distinct ids whatever the images. */
  lemma StaticIdsDistinct(i: nat, j: nat, x: string, y: string)
    requires i != j
    ensures "static-" + NatToString(i) + "-" + x != "static-" + NatToString(j) + "-" + y
  {
    var si, sj := NatToString(i), NatToString(j);
    if si == sj {
      NatToStringInjective(i, j);
      assert false;
    }
    HyphenEndsDigits(si, sj, x, y);
  }

  /** Two different digit strings followed by a hyphen differ up to that hyphen. */
  lemma HyphenEndsDigits(si: string, sj: string, x: string, y: string)
    requires si != sj
    requires forall k :: 0 <= k < |si| ==> '0' <= si[k] <= '9'
    requires forall k :: 0 <= k < |sj| ==> '0' <= sj[k] <= '9'
    ensures "static-" + si + "-" + x != "static-" + sj + "-" + y
  {
    var u, v := "static-" + si + "-" + x, "static-" + sj + "-" + y;
    if |si| == |sj| {
      assert u[7..7 + |si|] == si && v[7..7 + |sj|] == sj;
    } else if |si| < |sj| {
      assert u[7 + |si|] == '-' && v[7 + |si|] == sj[|si|];
    } else {
      assert v[7 + |sj|] == '-' && u[7 + |sj|] == si[|sj|];
    }
  }

  /** Different keys render as different ids. */
  lemma IdTextDistinct(a: EntryKey, b: EntryKey)
    requires a != b
    ensures IdText(a) != IdText(b)
  {
    match a {
      case DbKey(n) =>
        match b {
          case DbKey(m) => DbIdsDistinct(n, m);
          case StaticKey(j, y) => IdPrefixesDiffer(n, j, y);
        }
      case StaticKey(i, x) =>
        match b {
          case DbKey(m) => IdPrefixesDiffer(m, i, x);
          case StaticKey(j, y) =>
            if i != j {
              StaticIdsDistinct(i, j, x, y);
            } else {
              var si := NatToString(i);
              assert IdText(a)[8 + |si|..] == x;
              assert IdText(b)[8 + |si|..] == y;
            }
        }
    }
  }

  /** No two cards of a list share a key. */
  predicate DistinctKeys(m: seq<Entry>) {
    forall j, k :: 0 <= j < k < |m| ==> m[j].key != m[k].key
  }

  /** No two cards of a list share a key or an id. */
  predicate DistinctIds(m: seq<Entry>) {
    forall j, k :: 0 <= j < k < |m| ==> m[j].key != m[k].key && IdText(m[j].key) != IdText(m[k].key)
  }

  /** Every card on the page has its own id when the database ids are distinct. */
  lemma MergedIdsDistinct(rows: seq<Product>, statics: seq<StaticItem>, input: string)
    requires UniqueIds(rows)
    ensures DistinctIds(Merged(rows, statics, input))
  {
    var kept := KeptStatics(statics, input);
    assert Merged(rows, statics, input) == DbEntries(rows) + StaticEntries(kept);
    EntryKeysDistinct(rows, kept);
    KeysGiveIds(DbEntries(rows) + StaticEntries(kept));
  }

  /** Database keys are the distinct row ids and static keys the distinct positions. */
  lemma EntryKeysDistinct(rows: seq<Product>, kept: seq<StaticItem>)
    requires UniqueIds(rows)
    ensures DistinctKeys(DbEntries(rows) + StaticEntries(kept))
  {
    var d, t := DbEntries(rows), StaticEntries(kept);
    var m := d + t;
    forall j, k | 0 <= j < k < |m|
      ensures m[j].key != m[k].key
    {
      if k < |d| {
        assert m[j].key == DbKey(rows[j].id) && m[k].key == DbKey(rows[k].id);
      } else if j < |d| {
        assert m[j].key.DbKey? && m[k].key.StaticKey?;
      } else {
        assert m[j].key.position == j - |d| && m[k].key.position == k - |d|;
      }
    }
  }

  /** Distinct keys render as distinct ids. */
  lemma KeysGiveIds(m: seq<Entry>)
    requires DistinctKeys(m)
    ensures DistinctIds(m)
  {
    forall j, k | 0 <= j < k < |m|
      ensures IdText(m[j].key) != IdText(m[k].key)
    {
      IdTextDistinct(m[j].key, m[k].key);
    }
  }

  lemma IdPrefixesDiffer(a: int, i: nat, x: string)
    ensures "db-" + IntToString(a) != "static-" + NatToString(i) + "-" + x
  {
    assert ("db-" + IntToString(a))[0] == 'd';
    assert ("static-" + NatToString(i) + "-" + x)[0] == 's';
  }

  // The add-to-cart payload.

  /** An entry as the mapping builds it: a database entry carries its row id and kobo price. */
  predicate WellFormed(e: Entry) {
    e.source == Db ==> e.backendId.Some? && e.priceKobo.Some?
  }

  /** The image a card shows when its product has none. */
  const Placeholder: string := "img/placeholder.png"

  /** `p.image || 'img/placeholder.png'` */
  function CardImage(e: Entry): (img: string)
    ensures img != ""
    ensures e.image != "" ==> img == e.image
    ensures e.image == "" ==> img == Placeholder
  {
    if e.image == "" then Placeholder else e.image
  }

  /**
   * Lines 80-84: the object the card's button hands to `addToCart`. A
   * database card sends its row id and its price rounded to naira, a static
   * card its synthetic id and its naira price. A missing name is sent as "".
   */
  function AddPayload(e: Entry): (c: ClientCart.CartProduct)
    requires WellFormed(e)
    ensures e.source == Db ==> c.id == NumId(e.backendId.value) && c.price == RoundDiv100(e.priceKobo.value)
    ensures e.source == Static ==> c.id == StrId(IdText(e.key)) && c.price == e.priceNaira
    ensures c.image == CardImage(e) && c.name == e.name.GetOr("")
  {
    var img := CardImage(e);
    if e.source == Db then ClientCart.CartProduct(NumId(e.backendId.value), e.name.GetOr(""), RoundDiv100(e.priceKobo.value), img)
    else ClientCart.CartProduct(StrId(IdText(e.key)), e.name.GetOr(""), e.priceNaira, img)
  }

  /**
   * Every card of the list yields a payload, the cart is charged the price the
   * card shows, and different cards add different cart lines.
   */
  predicate PayloadsFit(m: seq<Entry>) {
    (forall k :: 0 <= k < |m| ==> WellFormed(m[k]) && AddPayload(m[k]).price == m[k].priceNaira)
    && (forall j, k :: 0 <= j < k < |m| ==> AddPayload(m[j]).id != AddPayload(m[k]).id)
  }

  /** The payloads of the merged list fit its cards when the database ids are distinct. */
  lemma PayloadsMatchCards(rows: seq<Product>, statics: seq<StaticItem>, input: string)
    requires UniqueIds(rows)
    ensures PayloadsFit(Merged(rows, statics, input))
  {
    var kept := KeptStatics(statics, input);
    assert Merged(rows, statics, input) == DbEntries(rows) + StaticEntries(kept);
    EntryPayloadsFit(rows, kept);
  }

  /** `PayloadsMatchCards` for any list of kept items. */
  lemma EntryPayloadsFit(rows: seq<Product>, kept: seq<StaticItem>)
    requires UniqueIds(rows)
    ensures PayloadsFit(DbEntries(rows) + StaticEntries(kept))
  {
    var d, t := DbEntries(rows), StaticEntries(kept);
    var m := d + t;
    EntryKeysDistinct(rows, kept);
    KeysGiveIds(m);
    forall k | 0 <= k < |m|
      ensures WellFormed(m[k]) && AddPayload(m[k]).price == m[k].priceNaira
      ensures AddPayload(m[k]).id == PayloadId(m[k].key)
    {
      if k < |d| {
        assert m[k] == DbEntry(rows[k]);
      } else {
        assert m[k] == StaticEntry(kept[k - |d|], k - |d|);
      }
    }
    forall j, k | 0 <= j < k < |m|
      ensures AddPayload(m[j]).id != AddPayload(m[k]).id
    {
      PayloadIdsDistinct(m[j].key, m[k].key);
    }
  }

  /** The cart id a card with this key sends. */
  function PayloadId(k: EntryKey): ItemId {
    match k
    case DbKey(n) => NumId(n)
    case StaticKey(_, _) => StrId(IdText(k))
  }

  lemma PayloadIdsDistinct(a: EntryKey, b: EntryKey)
    requires a != b && IdText(a) != IdText(b)
    ensures PayloadId(a) != PayloadId(b)
  {
  }

  // The suggestion dropdown.

  /** The shape built at lines 182-188: no id, and a database item no naira price. */
  datatype Suggestion = Suggestion(source: Source, backendId: Option<int>, name: Option<string>, category: string,
                                   image: string, priceKobo: Option<int>, priceNaira: Option<int>)

  /** Line 149: `item.priceNaira || Math.round((Number(item.priceKobo)||0)/100) || 0`. */
  function ShownPrice(s: Suggestion): int {
    if s.priceNaira.Some? && s.priceNaira.value != 0 then s.priceNaira.value
    else if s.priceKobo.Some? then RoundDiv100(s.priceKobo.value)
    else 0
  }

  function DbSuggestion(p: Product): Suggestion {
    Suggestion(Db, Some(p.id), Some(p.name), p.category, p.image, Some(p.price), None)
  }

  function StaticSuggestion(s: StaticItem): Suggestion {
    Suggestion(Static, None, s.name, s.category.GetOr(""), s.image.GetOr(""), None, Some(OrZero(s.price)))
  }

  function DbSuggestions(rows: seq<Product>): (r: seq<Suggestion>)
    ensures |r| == |rows|
    ensures forall k :: 0 <= k < |r| ==> r[k] == DbSuggestion(rows[k])
  {
    if rows == [] then [] else DbSuggestions(rows[..|rows| - 1]) + [DbSuggestion(rows[|rows| - 1])]
  }

  function StaticSuggestions(kept: seq<StaticItem>): (r: seq<Suggestion>)
    ensures |r| == |kept|
    ensures forall k :: 0 <= k < |r| ==> r[k] == StaticSuggestion(kept[k])
  {
    if kept == [] then [] else StaticSuggestions(kept[..|kept| - 1]) + [StaticSuggestion(kept[|kept| - 1])]
  }

  /** The dropdown: closed, "No products found", or the first eight suggestions. */
  datatype Dropdown = Closed | NoResults | Shown(items: seq<Suggestion>)

  /** Lines 152-162: an empty list shows the notice, a longer one its first eight. */
  function ShowSuggestions(list: seq<Suggestion>): (d: Dropdown)
    ensures d == NoResults <==> list == []
    ensures d.Shown? <==> list != []
    ensures d.Shown? ==> |d.items| == (if |list| < 8 then |list| else 8) && d.items == list[..|d.items|]
  {
    if list == [] then NoResults else Shown(Seqs.Take(list, 8))
  }

  /**
   * Lines 169-191. `rows` is the answer of the product query, `None` when the
   * response is not OK (read as no rows). A trimmed query shorter than two
   * characters closes the dropdown.
   */
  function LoadSuggestions(input: string, rows: Option<seq<Product>>, statics: seq<StaticItem>): (d: Dropdown)
    ensures d == Closed <==> |Trim(input)| < 2
  {
    var q := Trim(input);
    if |q| < 2 then Closed
    else
      var qLower := Lower(q);
      var kept := Seqs.Filter(statics, (s: StaticItem) => StaticMatches(s, qLower));
      ShowSuggestions(DbSuggestions(rows.GetOr([])) + StaticSuggestions(kept))
  }

  /**
   * The dropdown previews a listing: it is empty exactly when the listing is,
   * and its items are the first eight entries in the same order, each
   * previewing its entry.
   */
  predicate PreviewsListing(d: Dropdown, m: seq<Entry>) {
    (d == NoResults <==> m == [])
    && (d.Shown? <==> m != [])
    && (d.Shown? ==> (|d.items| == (if |m| < 8 then |m| else 8)
                      && forall k :: 0 <= k < |d.items| ==> Previews(d.items[k], m[k])))
  }

  /**
   * For a query of two or more characters the dropdown previews the merged
   * list the same query gives (the listing before its price sort): its first
   * eight entries with the same source, row id, name, category and image,
   * and the entry's naira price.
   */
  lemma SuggestionsPreviewListing(input: string, rows: seq<Product>, statics: seq<StaticItem>)
    requires |Trim(input)| >= 2
    ensures PreviewsListing(LoadSuggestions(input, Some(rows), statics), Merged(rows, statics, input))
  {
    var q := Trim(input);
    LowerLength(q);
    var p1 := (s: StaticItem) => StaticMatches(s, Lower(q));
    var p2 := (s: StaticItem) => KeptBy(s, QueryOf(input));
    Seqs.FilterAgree(statics, p1, p2);
    var kept := KeptStatics(statics, input);
    assert Seqs.Filter(statics, p1) == kept;
    var list := DbSuggestions(rows) + StaticSuggestions(kept);
    assert LoadSuggestions(input, Some(rows), statics) == ShowSuggestions(list);
    assert Merged(rows, statics, input) == DbEntries(rows) + StaticEntries(kept);
    ListsAlign(rows, kept);
    ShownPreviews(list, DbEntries(rows) + StaticEntries(kept));
  }

  /** Showing suggestions that line up with the entries previews those entries. */
  lemma ShownPreviews(list: seq<Suggestion>, m: seq<Entry>)
    requires |list| == |m| && forall k :: 0 <= k < |list| ==> Previews(list[k], m[k])
    ensures PreviewsListing(ShowSuggestions(list), m)
  {
  }

  /** Suggestions and entries built from the same rows and kept items line up one for one. */
  lemma ListsAlign(rows: seq<Product>, kept: seq<StaticItem>)
    ensures |DbSuggestions(rows) + StaticSuggestions(kept)| == |DbEntries(rows) + StaticEntries(kept)|
    ensures forall k :: 0 <= k < |DbSuggestions(rows) + StaticSuggestions(kept)| ==>
              Previews((DbSuggestions(rows) + StaticSuggestions(kept))[k], (DbEntries(rows) + StaticEntries(kept))[k])
  {
    var d, t := DbSuggestions(rows), StaticSuggestions(kept);
    var e, f := DbEntries(rows), StaticEntries(kept);
    forall k | 0 <= k < |d|
      ensures Previews((d + t)[k], (e + f)[k])
    {
      assert (d + t)[k] == DbSuggestion(rows[k]) && (e + f)[k] == DbEntry(rows[k]);
      DbPreviews(rows[k]);
    }
    forall k | |d| <= k < |d| + |t|
      ensures Previews((d + t)[k], (e + f)[k])
    {
      var i := k - |d|;
      assert (d + t)[k] == StaticSuggestion(kept[i]) && (e + f)[k] == StaticEntry(kept[i], i);
      StaticPreviews(kept[i], i);
    }
  }

  lemma DbPreviews(p: Product)
    ensures Previews(DbSuggestion(p), DbEntry(p))
  {
  }

  lemma StaticPreviews(s: StaticItem, idx: nat)
    ensures Previews(StaticSuggestion(s), StaticEntry(s, idx))
  {
  }

  /** A dropdown item shows what the listing card for the same product shows. */
  predicate Previews(s: Suggestion, e: Entry) {
    s.source == e.source && s.backendId == e.backendId && s.name == e.name && s.category == e.category
    && s.image == e.image && ShownPrice(s) == e.priceNaira
  }

  lemma LowerLength(s: string)
    ensures |Lower(s)| == |s|
  {
  }
}
