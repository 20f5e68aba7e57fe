/**
 * The two listing pages: `setupProjectsPage`, whose search box and category
 * and grade selects narrow the projects shown and update the "n of m" count,
 * and `setupEventsPage`, whose category select narrows the events shown. Each
 * page loads its data file once, fills its selects with the distinct values
 * the data holds, sorted the way `Array.prototype.sort` sorts by default, and
 * re-renders its list on every `apply`.
 */
module FilterPages {
  import opened JsValues
  import opened Escaping
  import opened Sequences
  import opened Renderers

  // ----- the project filter -----

  /**
   * `...(p.category || [])`: an array spreads into its elements and a string
   * into its characters; any other truthy value is not iterable and throws.
   */
  function CategorySpread(p: Record): Completion<seq<Value>>
  {
    var c := Get(p, "category");
    if !Truthy(c) then Normal([])
    else match c
      case Arr(items) => Normal(items)
      case Str(s) => Normal(seq(|s|, i requires 0 <= i < |s| => Str([s[i]])))
      case _ => ThrowTypeError
  }

  /** A record whose categories the filter can spread. */
  predicate Spreadable(p: Record)
  {
    var c := Get(p, "category");
    !Truthy(c) || c.Arr? || c.Str?
  }

  /** The lower-cased text the search box is matched against. */
  function Haystack(p: Record): Completion<string>
  {
    match CategorySpread(p)
    case ThrowTypeError => ThrowTypeError
    case Normal(cats) =>
      Normal(Lower(JoinValues([Get(p, "title"), Get(p, "student"), Get(p, "summary")] + cats, " ")))
  }

  /** `(p.category || []).includes(cat)`: an array element, or a substring of a string category. */
  predicate InCategory(p: Record, cat: string)
  {
    var c := Get(p, "category");
    if !Truthy(c) then false
    else match c
      case Arr(items) => Str(cat) in items
      case Str(s) => Contains(s, cat)
      case _ => false
  }

  /** The `data.filter` callback, for a query `q` that is already lower-cased. */
  function Verdict(p: Record, q: string, cat: string, grade: string): Completion<bool>
  {
    match Haystack(p)
    case ThrowTypeError => ThrowTypeError
    case Normal(hay) =>
      Normal(
        && (q == "" || Contains(hay, q))
        && (cat == "" || InCategory(p, cat))
        && (grade == "" || Get(p, "grade") == Str(grade)))
  }

  function Keeps(q: string, cat: string, grade: string): Record -> bool
  {
    p => Verdict(p, q, cat, grade) == Normal(true)
  }

  /** `data.filter(...)`, which throws as soon as one callback throws. */
  function FilterProjects(data: seq<Record>, q: string, cat: string, grade: string): Completion<seq<Record>>
  {
    if exists i | 0 <= i < |data| :: Verdict(data[i], q, cat, grade).ThrowTypeError? then ThrowTypeError
    else Normal(Filter(data, Keeps(q, cat, grade)))
  }

  /** The filter throws exactly when some record's category cannot be spread, whatever is selected. */
  lemma FilterProjectsThrows(data: seq<Record>, q: string, cat: string, grade: string)
    ensures FilterProjects(data, q, cat, grade).ThrowTypeError? <==>
      exists i | 0 <= i < |data| :: !Spreadable(data[i])
  {
    if exists i | 0 <= i < |data| :: !Spreadable(data[i]) {
      var i :| 0 <= i < |data| && !Spreadable(data[i]);
      assert Verdict(data[i], q, cat, grade).ThrowTypeError?;
    }
  }

  /**
   * What the filter keeps: the records of `data`, in their order, for which
   * the query is empty or occurs in the haystack, the category is empty or is
   * one of the record's, and the grade is empty or is the record's grade.
   */
  lemma FilterProjectsMeaning(data: seq<Record>, q: string, cat: string, grade: string)
    requires FilterProjects(data, q, cat, grade).Normal?
    ensures var shown := FilterProjects(data, q, cat, grade).value;
      && Subsequence(shown, data)
      && |shown| <= |data|
      && forall p | p in data ::
           p in shown <==>
             && (q == "" || Contains(Haystack(p).value, q))
             && (cat == "" || InCategory(p, cat))
             && (grade == "" || Get(p, "grade") == Str(grade))
  {
    FilterSubsequence(data, Keeps(q, cat, grade));
    forall p | p in data ensures Haystack(p).Normal? {
      var i :| 0 <= i < |data| && data[i] == p;
      assert !Verdict(data[i], q, cat, grade).ThrowTypeError?;
    }
  }

  /** With the search box and both selects empty, the filter keeps every project, whenever it does not throw. */
  lemma EmptyFiltersKeepAll(data: seq<Record>)
    requires FilterProjects(data, "", "", "").Normal?
    ensures FilterProjects(data, "", "", "").value == data
  {
    forall p | p in data ensures Keeps("", "", "")(p) {
      var i :| 0 <= i < |data| && data[i] == p;
      assert !Verdict(data[i], "", "", "").ThrowTypeError?;
    }
    FilterAll(data, Keeps("", "", ""));
  }

  /** The three controls narrow independently: filtering by all is filtering by each in turn. */
  lemma FilterConjunctive(data: seq<Record>, q: string, cat: string, grade: string)
    requires FilterProjects(data, q, cat, grade).Normal?
    ensures FilterProjects(data, q, cat, grade).value ==
      Filter(Filter(Filter(data, Keeps(q, "", "")), Keeps("", cat, "")), Keeps("", "", grade))
  {
    var byQ, byCat, byGrade := Keeps(q, "", ""), Keeps("", cat, ""), Keeps("", "", grade);
    var both := (p: Record) => byQ(p) && byCat(p);
    forall p | p in data ensures Haystack(p).Normal? {
      var i :| 0 <= i < |data| && data[i] == p;
      assert !Verdict(data[i], q, cat, grade).ThrowTypeError?;
    }
    FilterFilter(data, byQ, byCat, both);
    forall p | p in Filter(data, both) ensures Keeps(q, cat, grade)(p) == (both(p) && byGrade(p)) {
      assert p in data;
    }
    FilterFilter(Filter(data, both), both, byGrade, Keeps(q, cat, grade));
    forall p | p in data ensures Keeps(q, cat, grade)(p) == (both(p) && byGrade(p)) {
    }
    FilterFilter(data, both, byGrade, Keeps(q, cat, grade));
  }

  /** A grade that is not a string in the data never matches a selected grade. */
  lemma NonStringGradeNeverMatches(p: Record, q: string, cat: string, grade: string)
    requires grade != "" && !Get(p, "grade").Str?
    ensures Verdict(p, q, cat, grade) != Normal(true)
  {
  }

  /** `${shown} of ${total}` */
  function CountText(shown: nat, total: nat): string
  {
    NatToString(shown) + " of " + NatToString(total)
  }

  // ----- option vocabularies -----

  /** How the default `sort` orders a value: by `String(v)`, with `undefined` last. */
  function SortKey(v: Value): Option<string>
  {
    if v.Undefined? then None else Some(ToString(v))
  }

  predicate SortKeyLe(a: Option<string>, b: Option<string>)
  {
    b.None? || (a.Some? && StrLe(a.value, b.value))
  }

  lemma SortKeyOrder()
    ensures TotalPreorder(SortKeyLe)
  {
    forall a: Option<string>, b: Option<string> ensures SortKeyLe(a, b) || SortKeyLe(b, a) {
      if a.Some? && b.Some? {
        StrLeTotal(a.value, b.value);
      }
    }
    forall a: Option<string>, b: Option<string>, c: Option<string> | SortKeyLe(a, b) && SortKeyLe(b, c)
      ensures SortKeyLe(a, c)
    {
      if a.Some? && b.Some? && c.Some? {
        StrLeTransitive(a.value, b.value, c.value);
      }
    }
  }

  /** `Array.from(new Set(values)).sort()` */
  function Vocabulary(values: seq<Value>): seq<Value>
  {
    SortBy(Distinct(values), SortKey, SortKeyLe)
  }

  /**
   * A select's options: each value present exactly once, nothing else, in the
   * default sort order.
   */
  lemma VocabularyProperties(values: seq<Value>)
    ensures var vocabulary := Vocabulary(values);
      && NoDuplicates(vocabulary)
      && (forall v :: v in vocabulary <==> v in values)
      && forall i, j | 0 <= i < j < |vocabulary| :: SortKeyLe(SortKey(vocabulary[i]), SortKey(vocabulary[j]))
  {
    var d := Distinct(values);
    var vocabulary := Vocabulary(values);
    PermutationNoDuplicates(d, vocabulary);
    SortKeyOrder();
    SortBySorted(d, SortKey, SortKeyLe);
    forall v ensures v in vocabulary <==> v in values {
      assert v in vocabulary <==> v in multiset(vocabulary);
      assert v in d <==> v in multiset(d);
    }
  }

  /** What `p.category || []` adds to `flatMap`: an array's elements, or the value itself. */
  function CategoryEntries(p: Record): seq<Value>
  {
    var c := Get(p, "category");
    if !Truthy(c) then [] else if c.Arr? then c.items else [c]
  }

  /** `data.flatMap(p => p.category || [])` */
  function CategoryValues(data: seq<Record>): seq<Value>
  {
    if data == [] then [] else CategoryEntries(data[0]) + CategoryValues(data[1..])
  }

  lemma {:induction false} CategoryValuesMembership(data: seq<Record>, v: Value)
    ensures v in CategoryValues(data) <==> exists i | 0 <= i < |data| :: v in CategoryEntries(data[i])
  {
    if data != [] {
      CategoryValuesMembership(data[1..], v);
      if exists i | 0 <= i < |data[1..]| :: v in CategoryEntries(data[1..][i]) {
        var i :| 0 <= i < |data[1..]| && v in CategoryEntries(data[1..][i]);
        assert data[i + 1] == data[1..][i];
      }
      if exists i | 0 <= i < |data| :: v in CategoryEntries(data[i]) {
        var i :| 0 <= i < |data| && v in CategoryEntries(data[i]);
        if i > 0 {
          assert data[1..][i - 1] == data[i];
        }
      }
    }
  }

  /** `data.map(p => p.<name>)` */
  function FieldValues(data: seq<Record>, name: string): seq<Value>
  {
    seq(|data|, i requires 0 <= i < |data| => Get(data[i], name))
  }

  /** Each truthy value's escaped text decodes back to that text. */
  lemma EscapedValuesDecode(values: seq<Value>)
    ensures forall i | 0 <= i < |values| && Truthy(values[i]) ::
      Decode(SafeHtml(values[i])) == ToString(values[i])
  {
    forall i | 0 <= i < |values| && Truthy(values[i])
      ensures Decode(SafeHtml(values[i])) == ToString(values[i])
    {
      SafeHtmlRoundTrip(values[i]);
    }
  }

  /**
   * The text of each `<option>` after the "All ..." one: markup-safe, and
   * reading back as the value's text (empty for a falsy value).
   */
  function OptionLabels(values: seq<Value>): (r: seq<string>)
    ensures |r| == |values|
    ensures forall i | 0 <= i < |values| :: Safe(r[i])
    ensures forall i | 0 <= i < |values| ::
      if Truthy(values[i]) then Decode(r[i]) == ToString(values[i]) else r[i] == ""
  {
    EscapedValuesDecode(values);
    seq(|values|, i requires 0 <= i < |values| => SafeHtml(values[i]))
  }

  /**
   * Choosing a string-valued category the select offers keeps at least one
   * project of that category in the filter's result, whenever it does not throw.
   */
  lemma CategoryOptionSelects(data: seq<Record>, s: string)
    requires s != "" && Str(s) in Vocabulary(CategoryValues(data))
    requires FilterProjects(data, "", s, "").Normal?
    ensures exists p | p in FilterProjects(data, "", s, "").value :: InCategory(p, s)
  {
    VocabularyProperties(CategoryValues(data));
    CategoryValuesMembership(data, Str(s));
    var i :| 0 <= i < |data| && Str(s) in CategoryEntries(data[i]);
    var p := data[i];
    var c := Get(p, "category");
    if !c.Arr? {
      assert c == Str(s);
      assert StartsWith(s, s);
    }
    assert InCategory(p, s);
    assert !Verdict(data[i], "", s, "").ThrowTypeError?;
    assert Keeps("", s, "")(p);
  }

  /**
   * Choosing a string-valued grade the select offers keeps at least one
   * project of that grade in the filter's result, whenever it does not throw.
   */
  lemma GradeOptionSelects(data: seq<Record>, s: string)
    requires s != "" && Str(s) in Vocabulary(FieldValues(data, "grade"))
    requires FilterProjects(data, "", "", s).Normal?
    ensures exists p | p in FilterProjects(data, "", "", s).value :: Get(p, "grade") == Str(s)
  {
    VocabularyProperties(FieldValues(data, "grade"));
    var i :| 0 <= i < |data| && FieldValues(data, "grade")[i] == Str(s);
    var p := data[i];
    assert !Verdict(data[i], "", "", s).ThrowTypeError?;
    assert Keeps("", "", s)(p);
  }

  // ----- the event filter -----

  function HasCategory(cat: string): Record -> bool
  {
    e => Get(e, "category") == Str(cat)
  }

  /** `!cat ? data : data.filter(e => e.category === cat)` */
  function FilterEvents(data: seq<Record>, cat: string): seq<Record>
  {
    if cat == "" then data else Filter(data, HasCategory(cat))
  }

  /**
   * An empty category shows every event; any other shows, in order, exactly
   * the events whose category is that string.
   */
  lemma FilterEventsMeaning(data: seq<Record>, cat: string)
    ensures cat == "" ==> FilterEvents(data, cat) == data
    ensures var shown := FilterEvents(data, cat);
      && Subsequence(shown, data)
      && (cat != "" ==> forall e | e in data :: e in shown <==> Get(e, "category") == Str(cat))
  {
    FilterSubsequence(data, HasCategory(cat));
    if cat == "" {
      SubsequenceReflexive(data);
    }
  }

  /**
   * Choosing a string-valued type the events select offers keeps at least one
   * event of that type in the filter's result.
   */
  lemma EventOptionSelects(data: seq<Record>, s: string)
    requires s != "" && Str(s) in Vocabulary(FieldValues(data, "category"))
    ensures exists e | e in FilterEvents(data, s) :: Get(e, "category") == Str(s)
  {
    VocabularyProperties(FieldValues(data, "category"));
    var i :| 0 <= i < |data| && FieldValues(data, "category")[i] == Str(s);
    assert HasCategory(s)(data[i]);
  }

  // ----- the pages -----

  datatype PageState = Unloaded | Failed | Ready

  const ProjectsLoadFailure: string := "Could not load projects."
  const EventsLoadFailure: string := "Could not load events."

  /**
   * The projects page: which of its elements exist, the data it loaded, and
   * what it has written into the list, the count and the two selects.
   */
  class ProjectsPage {
    const hasWrapper: bool
    const hasList: bool
    const hasCount: bool
    const hasCategorySelect: bool
    const hasGradeSelect: bool
    var state: PageState
    var data: seq<Record>
    var list: Fragment
    var count: string
    var categoryOptions: seq<string>
    var gradeOptions: seq<string>

    constructor(hasWrapper: bool, hasList: bool, hasCount: bool, hasCategorySelect: bool, hasGradeSelect: bool)
      ensures this.hasWrapper == hasWrapper && this.hasList == hasList && this.hasCount == hasCount
      ensures this.hasCategorySelect == hasCategorySelect && this.hasGradeSelect == hasGradeSelect
      ensures state == Unloaded && data == [] && list == Blank && count == ""
      ensures categoryOptions == [] && gradeOptions == []
    {
      this.hasWrapper := hasWrapper;
      this.hasList := hasList;
      this.hasCount := hasCount;
      this.hasCategorySelect := hasCategorySelect;
      this.hasGradeSelect := hasGradeSelect;
      state := Unloaded;
      data := [];
      list := Blank;
      count := "";
      categoryOptions := [];
      gradeOptions := [];
    }

    /** What `apply` leaves in the list: the rendered projects, unless filtering or rendering throws. */
    static function ListAfter(data: seq<Record>, search: string, cat: string, grade: string, before: Fragment): Fragment
    {
      match FilterProjects(data, Lower(search), cat, grade)
      case ThrowTypeError => before
      case Normal(shown) =>
        match RenderProjects(shown, None)
        case ThrowTypeError => before
        case Normal(f) => f
    }

    /** What `apply` leaves in the count: "shown of total", unless a throw comes first. */
    static function CountAfter(data: seq<Record>, search: string, cat: string, grade: string,
                               listPresent: bool, before: string): string
    {
      match FilterProjects(data, Lower(search), cat, grade)
      case ThrowTypeError => before
      case Normal(shown) =>
        if listPresent && RenderProjects(shown, None).ThrowTypeError? then before
        else CountText(|shown|, |data|)
    }

    /**
     * `apply()` with the current search text and select values (each "" when
     * its element is missing): re-renders the list and rewrites the count.
     */
    method Apply(search: string, cat: string, grade: string)
      requires state == Ready
      modifies this
      ensures state == old(state) && data == old(data)
      ensures categoryOptions == old(categoryOptions) && gradeOptions == old(gradeOptions)
      ensures list == if hasList then ListAfter(data, search, cat, grade, old(list)) else old(list)
      ensures count == if hasCount then CountAfter(data, search, cat, grade, hasList, old(count)) else old(count)
    {
      var filtered := FilterProjects(data, Lower(search), cat, grade);
      if filtered.ThrowTypeError? {
        return;
      }
      var shown := filtered.value;
      var rendered := RenderProjects(shown, None);
      ghost var before := list;
      assert ListAfter(data, search, cat, grade, before) == if rendered.Normal? then rendered.value else before;
      if hasList {
        if rendered.ThrowTypeError? {
          return;
        }
        list := rendered.value;
      }
      if hasCount {
        count := CountText(|shown|, |data|);
      }
    }

    /**
     * `setupProjectsPage()`, given how loading the projects file ends and the
     * search box's text: on failure the list shows the notice; on success the
     * selects get the vocabularies and `apply` runs with both selects empty.
     */
    method Setup(load: Load, search: string)
      modifies this
      ensures !hasWrapper ==>
        && state == old(state) && data == old(data) && list == old(list) && count == old(count)
        && categoryOptions == old(categoryOptions) && gradeOptions == old(gradeOptions)
      ensures hasWrapper && load.LoadFailed? ==>
        && state == Failed && data == old(data) && count == old(count)
        && list == (if hasList then Muted(ProjectsLoadFailure) else old(list))
        && categoryOptions == old(categoryOptions) && gradeOptions == old(gradeOptions)
      ensures hasWrapper && load.Loaded? ==>
        && state == Ready && data == load.records
        && categoryOptions ==
             (if hasCategorySelect then OptionLabels(Vocabulary(CategoryValues(data))) else old(categoryOptions))
        && gradeOptions ==
             (if hasGradeSelect then OptionLabels(Vocabulary(FieldValues(data, "grade"))) else old(gradeOptions))
        && list == (if hasList then ListAfter(data, search, "", "", old(list)) else old(list))
        && count == (if hasCount then CountAfter(data, search, "", "", hasList, old(count)) else old(count))
    {
      if !hasWrapper {
        return;
      }
      match load
      case LoadFailed =>
        if hasList {
          list := Muted(ProjectsLoadFailure);
        }
        state := Failed;
      case Loaded(records) =>
        data := records;
        FillSelects();
        state := Ready;
        Apply(search, "", "");
    }

    /** Lines 397-400: each present select gets the distinct values of its field, sorted. */
    method FillSelects()
      modifies this
      ensures state == old(state) && data == old(data) && list == old(list) && count == old(count)
      ensures categoryOptions ==
        if hasCategorySelect then OptionLabels(Vocabulary(CategoryValues(data))) else old(categoryOptions)
      ensures gradeOptions ==
        if hasGradeSelect then OptionLabels(Vocabulary(FieldValues(data, "grade"))) else old(gradeOptions)
    {
      if hasCategorySelect {
        categoryOptions := OptionLabels(Vocabulary(CategoryValues(data)));
      }
      if hasGradeSelect {
        gradeOptions := OptionLabels(Vocabulary(FieldValues(data, "grade")));
      }
    }
  }

  /** The count never claims more projects than were loaded. */
  lemma CountWithinTotal(data: seq<Record>, search: string, cat: string, grade: string)
    requires FilterProjects(data, Lower(search), cat, grade).Normal?
    ensures |FilterProjects(data, Lower(search), cat, grade).value| <= |data|
  {
    FilterProjectsMeaning(data, Lower(search), cat, grade);
  }

  /** The events page: its elements, its data, and what it wrote into the list and the select. */
  class EventsPage {
    const hasWrapper: bool
    const hasList: bool
    const hasCategorySelect: bool
    var state: PageState
    var data: seq<Record>
    var list: Fragment
    var categoryOptions: seq<string>

    constructor(hasWrapper: bool, hasList: bool, hasCategorySelect: bool)
      ensures this.hasWrapper == hasWrapper && this.hasList == hasList
      ensures this.hasCategorySelect == hasCategorySelect
      ensures state == Unloaded && data == [] && list == Blank && categoryOptions == []
    {
      this.hasWrapper := hasWrapper;
      this.hasList := hasList;
      this.hasCategorySelect := hasCategorySelect;
      state := Unloaded;
      data := [];
      list := Blank;
      categoryOptions := [];
    }

    /** `apply()` with the select's value ("" when it is missing): the matching events, rendered. */
    method Apply(cat: string, env: Env)
      requires state == Ready
      modifies this
      ensures state == old(state) && data == old(data) && categoryOptions == old(categoryOptions)
      ensures list == if hasList then RenderEvents(FilterEvents(data, cat), None, env) else old(list)
    {
      if hasList {
        list := RenderEvents(FilterEvents(data, cat), None, env);
      }
    }

    /** `setupEventsPage()`, given how loading the events file ends. */
    method Setup(load: Load, env: Env)
      modifies this
      ensures !hasWrapper ==>
        state == old(state) && data == old(data) && list == old(list) && categoryOptions == old(categoryOptions)
      ensures hasWrapper && load.LoadFailed? ==>
        && state == Failed && data == old(data) && categoryOptions == old(categoryOptions)
        && list == (if hasList then Muted(EventsLoadFailure) else old(list))
      ensures hasWrapper && load.Loaded? ==>
        && state == Ready && data == load.records
        && categoryOptions ==
             (if hasCategorySelect then OptionLabels(Vocabulary(FieldValues(data, "category"))) else old(categoryOptions))
        && list == (if hasList then RenderEvents(data, None, env) else old(list))
    {
      if !hasWrapper {
        return;
      }
      match load
      case LoadFailed =>
        if hasList {
          list := Muted(EventsLoadFailure);
        }
        state := Failed;
      case Loaded(records) =>
        data := records;
        if hasCategorySelect {
          categoryOptions := OptionLabels(Vocabulary(FieldValues(records, "category")));
        }
        state := Ready;
        Apply("", env);
    }
  }
}
