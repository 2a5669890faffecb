/**
  Finding campaigns: the search screen's text search and category shortcut
  (src/pages/SearchPage.tsx) and the home screen's category filter, greeting
  and category labels (src/pages/HomePage.tsx). The locale rendering of a
  coupon value (`formatNumber`) is the parameter `formatNumber`.
 */
module Discovery {
  import opened Lists
  import opened Text
  import opened Types

  const CategoryPrefix: string := "Categoria: "

  /** Some coupon of the campaign shows `query` in its value, written plainly or through `formatNumber`. */
  predicate CouponValueMatch(c: CampanhaHome, query: string, formatNumber: int -> string)
  {
    c.cupons.Some? &&
    exists i :: 0 <= i < |c.cupons.value| &&
      (Contains(IntToString(c.cupons.value[i].valor), query) || Contains(formatNumber(c.cupons.value[i].valor), query))
  }

  /** The search test: store name or title contains the query ignoring case, or a coupon value contains it. */
  predicate MatchesQuery(c: CampanhaHome, query: string, formatNumber: int -> string)
  {
    || Contains(ToLower(c.loja.nome), ToLower(query))
    || Contains(ToLower(c.titulo), ToLower(query))
    || CouponValueMatch(c, query, formatNumber)
  }

  function QueryTest(query: string, formatNumber: int -> string): CampanhaHome -> bool
  {
    (c: CampanhaHome) => MatchesQuery(c, query, formatNumber)
  }

  /**
    `searchCampanhas(query)`, as the new result list given the current one:
    a blank query empties it, a query starting with "Categoria: " leaves it
    alone, any other query keeps, in order, the campaigns it matches.
   */
  function Search(campanhas: seq<CampanhaHome>, current: seq<CampanhaHome>, query: string,
                  formatNumber: int -> string): (r: seq<CampanhaHome>)
    ensures IsBlank(query) ==> r == []
    ensures !IsBlank(query) && StartsWith(query, CategoryPrefix) ==> r == current
    ensures !IsBlank(query) && !StartsWith(query, CategoryPrefix) ==>
      && SubSeq(r, campanhas)
      && (forall i :: 0 <= i < |r| ==> MatchesQuery(r[i], query, formatNumber))
      && (forall i :: 0 <= i < |campanhas| && MatchesQuery(campanhas[i], query, formatNumber) ==> campanhas[i] in r)
  {
    if IsBlank(query) then []
    else if StartsWith(query, CategoryPrefix) then current
    else Filter(campanhas, QueryTest(query, formatNumber))
  }

  /** A text search keeps every copy of every matching campaign and nothing else. */
  lemma SearchKeepsEveryMatch(campanhas: seq<CampanhaHome>, current: seq<CampanhaHome>, query: string,
                              formatNumber: int -> string)
    requires !IsBlank(query) && !StartsWith(query, CategoryPrefix)
    ensures forall c ::
      multiset(Search(campanhas, current, query, formatNumber))[c]
        == (if MatchesQuery(c, query, formatNumber) then multiset(campanhas)[c] else 0)
  {
    FilterMultiplicity(campanhas, QueryTest(query, formatNumber));
  }

  /** Case is ignored on names and titles: a query and its lower-cased form find the same campaigns. */
  lemma SearchIgnoresCaseOnText(c: CampanhaHome, query: string, formatNumber: int -> string)
    requires !CouponValueMatch(c, query, formatNumber) && !CouponValueMatch(c, ToLower(query), formatNumber)
    ensures MatchesQuery(c, query, formatNumber) <==> MatchesQuery(c, ToLower(query), formatNumber)
  {
    ToLowerIdempotent(query);
  }

  /** Lower-casing twice is lower-casing once. */
  lemma ToLowerIdempotent(s: string)
    ensures ToLower(ToLower(s)) == ToLower(s)
  {
  }

  /** Campaigns of the store category `id`. */
  function InCategory(id: int): CampanhaHome -> bool
  {
    (c: CampanhaHome) => id in c.loja.categorias
  }

  /** A category: its id and name. */
  datatype Categoria = Categoria(id: int, nome: string)

  /** The search screen's query and result list. */
  datatype SearchState = SearchState(query: string, results: seq<CampanhaHome>)

  /**
    `handleCategoryPress`: the results become the campaigns whose store
    lists the category, and the query its "Categoria: " caption.
   */
  function CategoryPress(campanhas: seq<CampanhaHome>, cat: Categoria): (r: SearchState)
    ensures r.query == CategoryPrefix + cat.nome
    ensures SubSeq(r.results, campanhas)
    ensures forall i :: 0 <= i < |r.results| ==> cat.id in r.results[i].loja.categorias
    ensures forall i :: 0 <= i < |campanhas| && cat.id in campanhas[i].loja.categorias ==> campanhas[i] in r.results
    ensures forall c :: multiset(r.results)[c] == (if cat.id in c.loja.categorias then multiset(campanhas)[c] else 0)
  {
    FilterMultiplicity(campanhas, InCategory(cat.id));
    SearchState(CategoryPrefix + cat.nome, Filter(campanhas, InCategory(cat.id)))
  }

  /** The query change then re-runs the search, which leaves the category results alone. */
  lemma CategoryResultsSurviveSearch(campanhas: seq<CampanhaHome>, cat: Categoria, formatNumber: int -> string)
    ensures var s := CategoryPress(campanhas, cat);
      Search(campanhas, s.results, s.query, formatNumber) == s.results
  {
    var q := CategoryPrefix + cat.nome;
    assert q[0] == 'C' && !IsSpace(q[0]);
    assert Trim(q) != "" by {
      TrimKeepsFirst(q);
    }
    assert q[..|CategoryPrefix|] == CategoryPrefix;
  }

  /** Trimming a string that starts with a non-space char leaves a non-empty string. */
  lemma TrimKeepsFirst(s: string)
    requires |s| > 0 && !IsSpace(s[0])
    ensures Trim(s) != ""
  {
    if Trim(s) == "" {
      TrimBlank(s);
    }
  }

  /** `handleClearSearch`: empty query and no results; the search that follows keeps it so. */
  function ClearSearch(): (r: SearchState)
    ensures r.query == "" && r.results == []
  {
    SearchState("", [])
  }

  lemma ClearedStaysEmpty(campanhas: seq<CampanhaHome>, formatNumber: int -> string)
    ensures Search(campanhas, ClearSearch().results, ClearSearch().query, formatNumber) == []
  {
    TrimBlank(ClearSearch().query);
  }

  // ---------------------------------------------------------------------
  // Home screen
  // ---------------------------------------------------------------------

  /** The fetched list (`campanhasRef`), the list shown and the selected category. */
  datatype HomeState = HomeState(all: seq<CampanhaHome>, shown: seq<CampanhaHome>, selected: Option<int>)

  /** `handleCategoryFilter`: always filters the full fetched list, never the list on screen. */
  function CategoryFilter(h: HomeState, id: int): (r: HomeState)
    ensures r.all == h.all && r.selected == Some(id)
    ensures SubSeq(r.shown, h.all)
    ensures forall i :: 0 <= i < |r.shown| ==> id in r.shown[i].loja.categorias
    ensures forall i :: 0 <= i < |h.all| && id in h.all[i].loja.categorias ==> h.all[i] in r.shown
    ensures forall c :: multiset(r.shown)[c] == (if id in c.loja.categorias then multiset(h.all)[c] else 0)
  {
    FilterMultiplicity(h.all, InCategory(id));
    h.(shown := Filter(h.all, InCategory(id)), selected := Some(id))
  }

  /** Filters do not accumulate: filtering by one category and then another is filtering by the second. */
  lemma CategoryFiltersNotCumulative(h: HomeState, a: int, b: int)
    ensures CategoryFilter(CategoryFilter(h, a), b) == CategoryFilter(h, b)
  {
  }

  /** "Todas Categorias": no selection, the full list shown. */
  function ShowAll(h: HomeState): (r: HomeState)
    ensures r.selected.None? && r.shown == r.all == h.all
  {
    h.(selected := None, shown := h.all)
  }

  /** Picking a category and then "all" gives back the full list, whatever was selected. */
  lemma ShowAllUndoesFilter(h: HomeState, id: int)
    ensures ShowAll(CategoryFilter(h, id)) == ShowAll(h)
  {
  }

  /** A category every campaign belongs to shows the whole list. */
  lemma FilterByUniversalCategory(h: HomeState, id: int)
    requires forall i :: 0 <= i < |h.all| ==> id in h.all[i].loja.categorias
    ensures CategoryFilter(h, id).shown == h.all
  {
    FilterKeepsAll(h.all, InCategory(id));
  }

  /**
    The greeting's name: the first space-separated word of the user's name
    when there is a name; otherwise the name shown before is kept.
   */
  function GreetingName(nome: Option<string>, shown: string): (r: string)
    ensures nome.None? || nome.value == "" ==> r == shown
    ensures nome.Some? && nome.value != "" ==> StartsWith(nome.value, r) && ' ' !in r
    ensures nome.Some? && nome.value != "" ==> |r| == |nome.value| || nome.value[|r|] == ' '
  {
    if nome.Some? && nome.value != "" then FirstWord(nome.value) else shown
  }

  const Invitation: string := "suas Campanhas em Destaque:"

  /** The greeting line: with a name "Olá <name>, confira …", without one the plain invitation. */
  function Greeting(userNome: string): (r: string)
    ensures userNome != "" ==> StartsWith(r, "Olá " + userNome + ",")
    ensures userNome == "" ==> r == "Confira " + Invitation
    ensures EndsWith(r, Invitation)
  {
    if userNome != "" then
      var head := "Olá " + userNome + ",";
      AppendEdges(head, " confira " + Invitation);
      AppendEdges(head + " confira ", Invitation);
      head + " confira " + Invitation
    else
      AppendEdges("Confira ", Invitation);
      "Confira " + Invitation
  }

  /** A name that starts with a space yields an empty first word, so the greeting loses the name. */
  lemma LeadingSpaceDropsName(nome: string, shown: string)
    requires |nome| > 0 && nome[0] == ' '
    ensures GreetingName(Some(nome), shown) == ""
  {
  }

  /** A category button's caption: names over 20 chars show their first 20 and "...". */
  function CategoryLabel(nome: string): (r: string)
    ensures |nome| <= 20 ==> r == nome
    ensures |nome| > 20 ==> |r| == 23 && StartsWith(nome, r[..20]) && r[20..] == "..."
  {
    if |nome| > 20 then nome[..20] + "..." else nome
  }

  /** Labels are at most 23 chars, and two long names with the same first 20 chars look alike. */
  lemma CategoryLabelBound(a: string, b: string)
    ensures |CategoryLabel(a)| <= 23
    ensures |a| > 20 && |b| > 20 && a[..20] == b[..20] ==> CategoryLabel(a) == CategoryLabel(b)
  {
  }
}
