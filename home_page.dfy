/** The list page: reads the search parameters, asks the venue table for the matching rows
    newest first, and turns each row (and its photos) into the shape the cards use. */
module HomePage {
  import opened Common
  import opened Entries
  import opened Ordering
  import SearchFilter

  /** A search parameter as the page receives it: absent, one string, or the list of
      strings of a key that occurs several times in the URL. */
  datatype ParamValue = Missing | One(text: string) | Many(texts: seq<string>)

  /** How the framework presents a query string to the page, key by key. */
  function ParamObject(ps: seq<Entry<string>>, key: string): ParamValue {
    var vs := GetAll(ps, key);
    if |vs| == 0 then Missing else if |vs| == 1 then One(vs[0]) else Many(vs)
  }

  /** `typeof q === 'string' ? q : undefined`. */
  function NormalizeQuery(v: ParamValue): Option<string> {
    if v.One? then Some(v.text) else None
  }

  /** `typeof v === 'string' && v !== 'All' ? v : undefined`. */
  function NormalizeChoice(v: ParamValue): Option<string> {
    if v.One? && v.text != SearchFilter.AllChoice then Some(v.text) else None
  }

  /** The page reads a parameter only when the URL holds the key exactly once: then the query
      is that value, and a choice is that value unless it is `All`. A key that is missing or
      repeated reads as absent, and no choice is ever `All`. */
  lemma NormalizeReadsSingleValue(ps: seq<Entry<string>>, key: string)
    ensures var vs, q := GetAll(ps, key), NormalizeQuery(ParamObject(ps, key));
      && (q.Some? <==> |vs| == 1)
      && (q.Some? ==> q.value == vs[0])
    ensures var vs, c := GetAll(ps, key), NormalizeChoice(ParamObject(ps, key));
      && (c.Some? <==> |vs| == 1 && vs[0] != SearchFilter.AllChoice)
      && (c.Some? ==> c.value == vs[0])
      && c != Some(SearchFilter.AllChoice)
  {
  }

  /** The parameters a search produces come back as the search bar's state: the query when
      it is non-empty, each choice unless it is empty or `All`, and nothing otherwise. */
  lemma SearchRoundTrip(q: string, genre: string, status: string)
    ensures NormalizeQuery(ParamObject(SearchFilter.SearchQuery(q, genre, status), "q"))
      == if q != "" then Some(q) else None
    ensures NormalizeChoice(ParamObject(SearchFilter.SearchQuery(q, genre, status), "genre"))
      == if SearchFilter.IsConstraint(genre) then Some(genre) else None
    ensures NormalizeChoice(ParamObject(SearchFilter.SearchQuery(q, genre, status), "status"))
      == if SearchFilter.IsConstraint(status) then Some(status) else None
  {
    SearchFilter.SearchQuerySetsActiveKeys(q, genre, status);
  }

  datatype DbImage = DbImage(id: int, url: string, caption: Option<string>, izakaya_id: int, created_at: int)

  /** A row of the venue table with its photos, as the database returns it. */
  datatype DbRow = DbRow(
    id: int, name: string, rating: int, genre: string, memo: Option<string>,
    map_url: Option<string>, status: string, created_at: int,
    izakaya_images: Option<seq<DbImage>>)

  datatype ImageView = ImageView(id: int, url: string, caption: Option<string>, izakayaId: int, createdAt: int)

  datatype IzakayaView = IzakayaView(
    id: int, name: string, rating: int, genre: string, mapUrl: Option<string>,
    status: string, images: seq<ImageView>)

  datatype Column = GenreColumn | StatusColumn

  datatype Filter =
    | NameIlike(text: string)             // .ilike('name', `%${text}%`)
    | Equals(column: Column, value: string) // .eq(column, value)

  datatype Order = CreatedAtDescending

  datatype Query = Query(order: Order, filters: seq<Filter>)

  predicate Holds(row: DbRow, f: Filter) {
    match f
    case NameIlike(text) => ContainsIgnoringCase(row.name, text)
    case Equals(GenreColumn, v) => row.genre == v
    case Equals(StatusColumn, v) => row.status == v
  }

  /** The database's reading of a query: every filter holds (they are conjoined). */
  predicate RowMatches(row: DbRow, query: Query) {
    forall k :: 0 <= k < |query.filters| ==> Holds(row, query.filters[k])
  }

  /** The rows the page means to show: each present, non-empty parameter constrains its column. */
  predicate Wanted(row: DbRow, q: Option<string>, genre: Option<string>, status: Option<string>) {
    && (q.None? || q.value == "" || ContainsIgnoringCase(row.name, q.value))
    && (genre.None? || genre.value == "" || row.genre == genre.value)
    && (status.None? || status.value == "" || row.status == status.value)
  }

  /** `if (x)` on a value that may be undefined. */
  predicate Truthy(v: Option<string>) {
    v.Some? && v.value != ""
  }

  /** The query built by reassigning `query` step by step. */
  method BuildQuery(q: Option<string>, genre: Option<string>, status: Option<string>) returns (query: Query)
    ensures query.order == CreatedAtDescending
    ensures forall row :: RowMatches(row, query) <==> Wanted(row, q, genre, status)
    ensures (exists k :: 0 <= k < |query.filters| && query.filters[k].NameIlike?) <==> Truthy(q)
    ensures |query.filters| == (if Truthy(q) then 1 else 0) + (if Truthy(genre) then 1 else 0) + (if Truthy(status) then 1 else 0)
  {
    query := Query(CreatedAtDescending, []);
    if Truthy(q) {
      query := query.(filters := query.filters + [NameIlike(q.value)]);
    }
    ghost var afterName := query.filters;
    if Truthy(genre) {
      query := query.(filters := query.filters + [Equals(GenreColumn, genre.value)]);
    }
    ghost var afterGenre := query.filters;
    if Truthy(status) {
      query := query.(filters := query.filters + [Equals(StatusColumn, status.value)]);
    }
    forall row ensures RowMatches(row, query) <==> Wanted(row, q, genre, status) {
      if Truthy(q) { assert query.filters[0] == NameIlike(q.value); }
      if Truthy(genre) { assert query.filters[|afterName|] == Equals(GenreColumn, genre.value); }
      if Truthy(status) { assert query.filters[|afterGenre|] == Equals(StatusColumn, status.value); }
    }
    if Truthy(q) { assert query.filters[0].NameIlike?; }
  }

  function CreatedAt(row: DbRow): int {
    row.created_at
  }

  /** The rows of the table the query keeps, in table order. */
  function Matching(table: seq<DbRow>, query: Query): (r: seq<DbRow>)
    ensures forall row :: row in r <==> row in table && RowMatches(row, query)
  {
    if table == [] then []
    else (if RowMatches(table[0], query) then [table[0]] else []) + Matching(table[1..], query)
  }

  /** The rows the store returns for a query: the matching ones, newest first. */
  function Execute(table: seq<DbRow>, query: Query): seq<DbRow> {
    SortDesc(Matching(table, query), CreatedAt)
  }

  function WantedRows(table: seq<DbRow>, q: Option<string>, genre: Option<string>, status: Option<string>): seq<DbRow> {
    if table == [] then []
    else (if Wanted(table[0], q, genre, status) then [table[0]] else []) + WantedRows(table[1..], q, genre, status)
  }

  /** The rows the page means to show, newest first. */
  function Selected(table: seq<DbRow>, q: Option<string>, genre: Option<string>, status: Option<string>): seq<DbRow> {
    SortDesc(WantedRows(table, q, genre, status), CreatedAt)
  }

  lemma {:induction false} MatchingIsWanted(table: seq<DbRow>, query: Query, q: Option<string>, genre: Option<string>, status: Option<string>)
    requires forall row :: RowMatches(row, query) <==> Wanted(row, q, genre, status)
    ensures Matching(table, query) == WantedRows(table, q, genre, status)
  {
    if table != [] {
      MatchingIsWanted(table[1..], query, q, genre, status);
    }
  }

  lemma {:induction false} WantedRowsMembers(table: seq<DbRow>, q: Option<string>, genre: Option<string>, status: Option<string>)
    ensures forall row :: row in WantedRows(table, q, genre, status) <==> row in table && Wanted(row, q, genre, status)
  {
    if table != [] {
      WantedRowsMembers(table[1..], q, genre, status);
      assert table == [table[0]] + table[1..];
    }
  }

  /** The selection holds exactly the wanted rows of the table, each as often as in the
      table, ordered by creation time, newest first. */
  lemma SelectedIsOrderedMatch(table: seq<DbRow>, q: Option<string>, genre: Option<string>, status: Option<string>)
    ensures forall row :: row in Selected(table, q, genre, status) <==> row in table && Wanted(row, q, genre, status)
    ensures multiset(Selected(table, q, genre, status)) == multiset(WantedRows(table, q, genre, status))
    ensures SortedDesc(Selected(table, q, genre, status), CreatedAt)
  {
    WantedRowsMembers(table, q, genre, status);
    SortDescKeepsRows(WantedRows(table, q, genre, status), CreatedAt);
  }

  function ToImageView(img: DbImage): ImageView {
    ImageView(img.id, img.url, img.caption, img.izakaya_id, img.created_at)
  }

  function ToView(row: DbRow): IzakayaView {
    var imgs := if row.izakaya_images.Some? then row.izakaya_images.value else [];
    IzakayaView(row.id, row.name, row.rating, row.genre, row.map_url, row.status,
                seq(|imgs|, k requires 0 <= k < |imgs| => ToImageView(imgs[k])))
  }

  /** `(data ?? []).map(row => ...)`. */
  function MapRows(data: Option<seq<DbRow>>): seq<IzakayaView> {
    var rows := if data.Some? then data.value else [];
    seq(|rows|, k requires 0 <= k < |rows| => ToView(rows[k]))
  }

  /** One row's view: every field under its new name, the photos in order, and a missing
      photo list read as empty. */
  lemma ToViewRenames(row: DbRow)
    ensures var v := ToView(row);
      && v.id == row.id && v.name == row.name && v.rating == row.rating && v.genre == row.genre
      && v.mapUrl == row.map_url && v.status == row.status
      && (row.izakaya_images.None? ==> v.images == [])
      && (row.izakaya_images.Some? ==>
            |v.images| == |row.izakaya_images.value| &&
            forall m :: 0 <= m < |v.images| ==>
              var img := row.izakaya_images.value[m];
              v.images[m] == ImageView(img.id, img.url, img.caption, img.izakaya_id, img.created_at))
  {
    if row.izakaya_images.Some? {
      var imgs := row.izakaya_images.value;
      forall m | 0 <= m < |imgs| ensures ToView(row).images[m] == ToImageView(imgs[m]) {
      }
    }
  }

  /** The mapping keeps the number and order of rows, makes each row into its view, and
      reads missing data as an empty list. */
  lemma MapRowsKeepsRows(data: Option<seq<DbRow>>)
    ensures data.None? ==> MapRows(data) == []
    ensures data.Some? ==> |MapRows(data)| == |data.value|
    ensures data.Some? ==> forall k :: 0 <= k < |data.value| ==> MapRows(data)[k] == ToView(data.value[k])
  {
  }

  /** The page: normalise the parameters, build and run the query, map the rows, and show
      the empty state when nothing is left. A failed query returns no data. */
  method Home(params: seq<Entry<string>>, table: seq<DbRow>, fails: bool)
    returns (views: seq<IzakayaView>, showsEmptyState: bool)
    ensures views == MapRows(if fails then None else Some(Selected(table,
      NormalizeQuery(ParamObject(params, "q")), NormalizeChoice(ParamObject(params, "genre")),
      NormalizeChoice(ParamObject(params, "status")))))
    ensures showsEmptyState <==> |views| == 0
  {
    var q := NormalizeQuery(ParamObject(params, "q"));
    var genre := NormalizeChoice(ParamObject(params, "genre"));
    var status := NormalizeChoice(ParamObject(params, "status"));
    var query := BuildQuery(q, genre, status);
    var data: Option<seq<DbRow>>;
    if fails {
      data := None;
    } else {
      MatchingIsWanted(table, query, q, genre, status);
      data := Some(Execute(table, query));
    }
    views := MapRows(data);
    showsEmptyState := |views| == 0;
  }

  /** The empty state shows exactly when the query failed or no row of the table is wanted. */
  lemma EmptyStateIffNothingWanted(table: seq<DbRow>, q: Option<string>, genre: Option<string>, status: Option<string>, fails: bool)
    ensures |MapRows(if fails then None else Some(Selected(table, q, genre, status)))| == 0
      <==> fails || forall row :: row in table ==> !Wanted(row, q, genre, status)
  {
    SelectedIsOrderedMatch(table, q, genre, status);
    var sel := Selected(table, q, genre, status);
    if !fails && |sel| > 0 {
      assert sel[0] in sel;
    }
  }
}
