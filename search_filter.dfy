/** The search bar on the list page: a name query and two choices (genre, status), each
    choice with the sentinel `All` for "any". Searching turns the state into URL query
    parameters, leaving out an empty query and any choice that is empty or `All`. */
module SearchFilter {
  import opened Common
  import opened Entries

  const AllChoice: string := "All"

  type Params = seq<Entry<string>>

  /** `value || fallback` on a value that may be null: the fallback replaces null and `''`. */
  function OrDefault(v: Option<string>, fallback: string): string {
    if v.Some? && v.value != "" then v.value else fallback
  }

  /** A choice narrows the search unless it is empty or the `All` sentinel. */
  predicate IsConstraint(choice: string) {
    choice != "" && choice != AllChoice
  }

  function Param(key: string, value: string, present: bool): Params {
    if present then [Entry(key, value)] else []
  }

  /** The parameters a search from state (q, genre, status) produces, in this order. */
  function SearchQuery(q: string, genre: string, status: string): Params {
    Param("q", q, q != "") + Param("genre", genre, IsConstraint(genre)) + Param("status", status, IsConstraint(status))
  }

  function KeysOf(ps: Params): seq<string> {
    seq(|ps|, k requires 0 <= k < |ps| => ps[k].key)
  }

  /** The values of any key in the parameters of a search. */
  lemma SearchQueryValues(q: string, genre: string, status: string)
    ensures forall key :: (GetAll(SearchQuery(q, genre, status), key) ==
      (if key == "q" && q != "" then [q] else []) +
      (if key == "genre" && IsConstraint(genre) then [genre] else []) +
      (if key == "status" && IsConstraint(status) then [status] else []))
  {
    var a, b, c := Param("q", q, q != ""), Param("genre", genre, IsConstraint(genre)),
                   Param("status", status, IsConstraint(status));
    assert SearchQuery(q, genre, status) == a + b + c;
    forall key ensures GetAll(a + b + c, key) ==
      (if key == "q" && q != "" then [q] else []) +
      (if key == "genre" && IsConstraint(genre) then [genre] else []) +
      (if key == "status" && IsConstraint(status) then [status] else [])
    {
      GetAllConcat(a, b, key);
      GetAllConcat(a + b, c, key);
      GetAllOne("q", q, key);
      GetAllOne("genre", genre, key);
      GetAllOne("status", status, key);
    }
  }

  /** Each key is set iff its value narrows the search and carries exactly that value;
      no other key is set. */
  lemma SearchQuerySetsActiveKeys(q: string, genre: string, status: string)
    ensures GetAll(SearchQuery(q, genre, status), "q") == (if q != "" then [q] else [])
    ensures GetAll(SearchQuery(q, genre, status), "genre") == (if IsConstraint(genre) then [genre] else [])
    ensures GetAll(SearchQuery(q, genre, status), "status") == (if IsConstraint(status) then [status] else [])
    ensures forall key :: key !in {"q", "genre", "status"} ==> GetAll(SearchQuery(q, genre, status), key) == []
  {
    SearchQueryValues(q, genre, status);
    var none: seq<string> := [];
    assert "status" != "q" && "status" != "genre" && "genre" != "q";
    assert none + none + [status] == [status];
    assert none + [genre] + none == [genre];
    assert [q] + none + none == [q];
  }

  /** The keys come at most once each, in the order q, genre, status. */
  lemma SearchQueryKeyOrder(q: string, genre: string, status: string)
    ensures KeysOf(SearchQuery(q, genre, status)) ==
      (if q != "" then ["q"] else []) + (if IsConstraint(genre) then ["genre"] else []) +
      (if IsConstraint(status) then ["status"] else [])
  {
  }

  class SearchState {
    var q: string
    var genre: string
    var status: string

    /** Initial state from the page's current query parameters. */
    constructor (params: Params)
      ensures q == OrDefault(Get(params, "q"), "")
      ensures genre == OrDefault(Get(params, "genre"), AllChoice)
      ensures status == OrDefault(Get(params, "status"), AllChoice)
    {
      q := OrDefault(Get(params, "q"), "");
      genre := OrDefault(Get(params, "genre"), AllChoice);
      status := OrDefault(Get(params, "status"), AllChoice);
    }

    method SetQuery(v: string)
      modifies this
      ensures q == v && genre == old(genre) && status == old(status)
    {
      q := v;
    }

    method SetGenre(v: string)
      modifies this
      ensures genre == v && q == old(q) && status == old(status)
    {
      genre := v;
    }

    method SetStatus(v: string)
      modifies this
      ensures status == v && q == old(q) && genre == old(genre)
    {
      status := v;
    }

    /** `handleSearch`: builds the parameters by conditional `set` calls on an empty list;
        the page is then navigated to `/?` followed by them. */
    method HandleSearch() returns (params: Params)
      ensures params == SearchQuery(q, genre, status)
    {
      params := [];
      if q != "" {
        SetFreshAppends(params, "q", q);
        params := Set(params, "q", q);
      }
      ghost var afterQ := params;
      if genre != "" && genre != AllChoice {
        GetAllConcat(afterQ, [], "genre");
        assert GetAll(afterQ, "genre") == [];
        SetFreshAppends(params, "genre", genre);
        params := Set(params, "genre", genre);
      }
      ghost var afterGenre := params;
      if status != "" && status != AllChoice {
        assert GetAll(afterGenre, "status") == [] by {
          GetAllConcat(afterQ, afterGenre[|afterQ|..], "status");
          assert afterQ + afterGenre[|afterQ|..] == afterGenre;
        }
        SetFreshAppends(params, "status", status);
        params := Set(params, "status", status);
      }
    }

    /** Enter in the text box runs the same search as the button; other keys do nothing. */
    method HandleKeyDown(key: string) returns (pushed: Option<Params>)
      ensures key == "Enter" ==> pushed == Some(SearchQuery(q, genre, status))
      ensures key != "Enter" ==> pushed.None?
    {
      if key == "Enter" {
        var params := HandleSearch();
        pushed := Some(params);
      } else {
        pushed := None;
      }
    }
  }

  /** A search bar opened on the parameters of a search shows the same query, and each
      choice as it was, except that an empty choice comes back as `All`. */
  lemma ReopenedSearchKeepsState(q: string, genre: string, status: string)
    ensures OrDefault(Get(SearchQuery(q, genre, status), "q"), "") == q
    ensures OrDefault(Get(SearchQuery(q, genre, status), "genre"), AllChoice) == (if genre == "" then AllChoice else genre)
    ensures OrDefault(Get(SearchQuery(q, genre, status), "status"), AllChoice) == (if status == "" then AllChoice else status)
  {
    var ps := SearchQuery(q, genre, status);
    SearchQuerySetsActiveKeys(q, genre, status);
    GetIsFirstOfAll(ps, "q");
    GetIsFirstOfAll(ps, "genre");
    GetIsFirstOfAll(ps, "status");
  }
}
