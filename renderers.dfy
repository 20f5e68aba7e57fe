/**
 * The seven data-driven renderers. Each takes the records of a JSON data file
 * and an optional limit, sorts or filters a copy, slices it with
 * `slice(0, limit || n)`, and turns every selected record into a card whose
 * text fields have all been through `safeHTML`. A card is kept abstract: the
 * template's markup and whitespace are not modelled, only which escaped text
 * goes into it and which optional blocks are present.
 */
module Renderers {
  import opened JsValues
  import opened Escaping
  import opened Links
  import opened Sequences

  /**
   * What the renderers take from the browser. `time(v)` is `new Date(v)` as a
   * millisecond timestamp (data dates are taken to be valid), `number(s)` is
   * `Number(s)` on a non-numeric year (taken to give an integer),
   * `formatDate(date, time)` is `formatNZDate`, and `now` is `Date.now()`.
   */
  datatype Env = Env(
    now: int,
    time: Value -> int,
    number: string -> int,
    formatDate: (Value, Value) -> string)

  /** Milliseconds in a day: an event stays "upcoming" until a day after its date. */
  const Day: int := 86400000

  /** One rendered card; every string holds escaped text, an `Option` is an optional block. */
  datatype Card =
    | EventCard(id: string, title: string, when: string, location: string,
                description: string, chip: string, link: Option<string>)
    | AnnouncementCard(id: string, title: string, when: string, summary: string,
                       link: Option<string>)
    | ProjectCard(id: string, image: string, alt: string, title: string, student: string,
                  grade: string, summary: string, chips: seq<string>, details: Option<string>)
    | MemberCard(photo: string, alt: string, name: string, role: string, bio: string,
                 email: Option<string>)
    | PrizeCard(id: string, title: string, sponsor: Option<string>, description: string,
                category: Option<string>)
    | WinnerCard(year: string, prize: string, project: string, credit: Option<string>,
                 category: Option<string>, link: Option<string>)

  /** One row of the resources table. */
  datatype ResourceRow = ResourceRow(href: string, newTab: bool, title: string, kind: string, size: string)

  /** What ends up as an element's `innerHTML`. */
  datatype Fragment =
    | Cards(cards: seq<Card>)                // the cards joined; no cards is ""
    | ResourceTable(rows: seq<ResourceRow>)  // the card-and-table wrapper around the rows
    | Blank                                  // ""
    | NoticeCard(message: string)            // a card holding one muted paragraph
    | Muted(message: string)                 // one muted paragraph

  ghost predicate SafeOption(o: Option<string>)
  {
    o.Some? ==> Safe(o.value)
  }

  /** Every text in the card has been escaped. */
  ghost predicate CardSafe(c: Card)
  {
    match c
    case EventCard(id, title, when, location, description, chip, link) =>
      Safe(id) && Safe(title) && Safe(when) && Safe(location) && Safe(description)
      && Safe(chip) && SafeOption(link)
    case AnnouncementCard(id, title, when, summary, link) =>
      Safe(id) && Safe(title) && Safe(when) && Safe(summary) && SafeOption(link)
    case ProjectCard(id, image, alt, title, student, grade, summary, chips, details) =>
      Safe(id) && Safe(image) && Safe(alt) && Safe(title) && Safe(student) && Safe(grade)
      && Safe(summary) && (forall i | 0 <= i < |chips| :: Safe(chips[i])) && SafeOption(details)
    case MemberCard(photo, alt, name, role, bio, email) =>
      Safe(photo) && Safe(alt) && Safe(name) && Safe(role) && Safe(bio) && SafeOption(email)
    case PrizeCard(id, title, sponsor, description, category) =>
      Safe(id) && Safe(title) && SafeOption(sponsor) && Safe(description) && SafeOption(category)
    case WinnerCard(year, prize, project, credit, category, link) =>
      Safe(year) && Safe(prize) && Safe(project) && SafeOption(credit)
      && SafeOption(category) && SafeOption(link)
  }

  ghost predicate RowSafe(row: ResourceRow)
  {
    Safe(row.href) && Safe(row.title) && Safe(row.kind) && Safe(row.size)
  }

  /** Every text the fragment interpolates has been escaped. */
  ghost predicate FragmentSafe(f: Fragment)
  {
    match f
    case Cards(cards) => forall i | 0 <= i < |cards| :: CardSafe(cards[i])
    case ResourceTable(rows) => forall i | 0 <= i < |rows| :: RowSafe(rows[i])
    case Blank => true
    case NoticeCard(_) => true   // fixed text of the script, not interpolated
    case Muted(_) => true
  }

  // ----- shared pieces -----

  /** `${v ? `...${text}...` : ''}`: an optional block, present when `v` is truthy. */
  function WhenTruthy(v: Value, text: string): (r: Option<string>)
    ensures r.Some? <==> Truthy(v)
  {
    if Truthy(v) then Some(text) else None
  }

  /** `safeHTML(normalizeHref(v))` */
  function Href(v: Value): (r: string)
    ensures Safe(r)
  {
    SafeHtml(NormalizeHref(v))
  }

  function IntLe(a: int, b: int): bool { a <= b }
  function IntGe(a: int, b: int): bool { a >= b }

  lemma IntOrders()
    ensures TotalPreorder(IntLe) && TotalPreorder(IntGe)
  {
  }

  /** `new Date(r.date)` as a timestamp. */
  function DateOf(env: Env, r: Record): int
  {
    env.time(Get(r, "date"))
  }

  function ByDate(env: Env): Record -> int
  {
    r => DateOf(env, r)
  }

  predicate IsUpcoming(env: Env, r: Record)
  {
    DateOf(env, r) >= env.now - Day
  }

  /** `e => new Date(e.date) >= new Date(Date.now() - 86400000)` */
  function Upcoming(env: Env): Record -> bool
  {
    r => IsUpcoming(env, r)
  }

  ghost predicate AscendingByDate(env: Env, s: seq<Record>)
  {
    forall i, j | 0 <= i < j < |s| :: DateOf(env, s[i]) <= DateOf(env, s[j])
  }

  ghost predicate DescendingByDate(env: Env, s: seq<Record>)
  {
    forall i, j | 0 <= i < j < |s| :: DateOf(env, s[i]) >= DateOf(env, s[j])
  }

  // ----- renderEvents -----

  /** `[...list].sort((a, b) => new Date(a.date) - new Date(b.date))` */
  function SortedEvents(list: seq<Record>, env: Env): seq<Record>
  {
    SortBy(list, ByDate(env), IntLe)
  }

  /** `upcoming.length ? upcoming : sorted` */
  function EventCandidates(list: seq<Record>, env: Env): seq<Record>
  {
    var sorted := SortedEvents(list, env);
    var upcoming := Filter(sorted, Upcoming(env));
    if |upcoming| > 0 then upcoming else sorted
  }

  /** The events `renderEvents(list, limit)` shows, in the order it shows them. */
  function SelectEvents(list: seq<Record>, limit: Option<int>, env: Env): seq<Record>
  {
    var sorted := SortedEvents(list, env);
    SliceTo(EventCandidates(list, env), LimitOr(limit, |sorted|))
  }

  function EventCardOf(e: Record, env: Env): (c: Card)
    ensures c.EventCard? && CardSafe(c)
    ensures c.link.Some? <==> Truthy(Get(e, "link"))
  {
    EventCard(
      SafeHtml(Or(Get(e, "id"), Str(""))),
      SafeHtml(Get(e, "title")),
      SafeHtml(Str(env.formatDate(Get(e, "date"), Get(e, "time")))),
      SafeHtml(Get(e, "location")),
      SafeHtml(Get(e, "description")),
      SafeHtml(Get(e, "category")),
      WhenTruthy(Get(e, "link"), Href(Get(e, "link"))))
  }

  /**
   * `renderEvents(list, limit)`: one card per selected event, every text
   * escaped, and the "Learn more" block exactly for events with a truthy link.
   */
  function RenderEvents(list: seq<Record>, limit: Option<int>, env: Env): (r: Fragment)
    ensures FragmentSafe(r)
    ensures var sel := SelectEvents(list, limit, env);
      r.Cards? && |r.cards| == |sel|
      && forall i | 0 <= i < |sel| ::
           && r.cards[i] == EventCardOf(sel[i], env) && r.cards[i].EventCard?
           && (r.cards[i].link.Some? <==> Truthy(Get(sel[i], "link")))
  {
    var sel := SelectEvents(list, limit, env);
    Cards(seq(|sel|, i requires 0 <= i < |sel| => EventCardOf(sel[i], env)))
  }

  lemma SortedEventsAscending(list: seq<Record>, env: Env)
    ensures AscendingByDate(env, SortedEvents(list, env))
    ensures multiset(SortedEvents(list, env)) == multiset(list)
  {
    IntOrders();
    SortBySorted(list, ByDate(env), IntLe);
  }

  /** The candidates are in ascending date order and are drawn from the input. */
  lemma CandidatesAscending(list: seq<Record>, env: Env)
    ensures AscendingByDate(env, EventCandidates(list, env))
    ensures forall e | e in EventCandidates(list, env) :: e in list
  {
    var sorted := SortedEvents(list, env);
    SortedEventsAscending(list, env);
    IntOrders();
    SortBySorted(list, ByDate(env), IntLe);
    FilterSorted(sorted, Upcoming(env), ByDate(env), IntLe);
    forall e | e in sorted ensures e in list {
      assert e in multiset(sorted);
    }
  }

  /**
   * `renderEvents` shows events in ascending date order, and only events
   * from its input.
   */
  lemma EventsAscending(list: seq<Record>, limit: Option<int>, env: Env)
    ensures AscendingByDate(env, SelectEvents(list, limit, env))
    ensures forall e | e in SelectEvents(list, limit, env) :: e in list
  {
    CandidatesAscending(list, env);
    var cand := EventCandidates(list, env);
    var sel := SelectEvents(list, limit, env);
    assert sel == cand[..|sel|];
    forall e | e in sel ensures e in cand {
      var k :| 0 <= k < |sel| && sel[k] == e;
      assert cand[k] == e;
    }
  }

  /** When some event is upcoming, the candidates are the upcoming events. */
  lemma CandidatesUpcoming(list: seq<Record>, env: Env, e: Record)
    requires e in list && IsUpcoming(env, e)
    ensures EventCandidates(list, env) == Filter(SortedEvents(list, env), Upcoming(env))
  {
    var sorted := SortedEvents(list, env);
    assert e in multiset(sorted);
    assert e in sorted && Upcoming(env)(e);
  }

  /**
   * When any event is upcoming (dated no earlier than a day before now), every
   * event shown is upcoming.
   */
  lemma EventsUpcomingOnly(list: seq<Record>, limit: Option<int>, env: Env, e: Record)
    requires e in list && IsUpcoming(env, e)
    ensures forall x | x in SelectEvents(list, limit, env) :: IsUpcoming(env, x)
  {
    CandidatesUpcoming(list, env, e);
    var cand := EventCandidates(list, env);
    var sel := SelectEvents(list, limit, env);
    PrefixMembers(cand, sel);
    forall x | x in sel ensures IsUpcoming(env, x) {
      assert Upcoming(env)(x);
    }
  }

  /**
   * When no event is upcoming, what is shown is a prefix of all events in
   * ascending date order.
   */
  lemma EventsFallback(list: seq<Record>, limit: Option<int>, env: Env)
    requires forall e | e in list :: !IsUpcoming(env, e)
    ensures var sel := SelectEvents(list, limit, env);
      sel == SortedEvents(list, env)[..|sel|]
  {
    var sorted := SortedEvents(list, env);
    forall x | x in sorted ensures !Upcoming(env)(x) {
      assert x in multiset(sorted);
    }
    FilterNone(sorted, Upcoming(env));
  }

  /**
   * The limit: a positive `limit` shows `min(limit, candidates)` events,
   * a missing or zero limit shows every candidate, and a negative one drops
   * `-limit` candidates from the end.
   */
  lemma EventsLimit(list: seq<Record>, limit: Option<int>, env: Env)
    ensures var cand := EventCandidates(list, env);
      var sel := SelectEvents(list, limit, env);
      && (limit.None? || limit.value == 0 ==> sel == cand)
      && (limit.Some? && limit.value > 0 ==>
            |sel| == (if limit.value < |cand| then limit.value else |cand|))
      && (limit.Some? && limit.value < 0 ==>
            |sel| == (if |cand| + limit.value > 0 then |cand| + limit.value else 0))
  {
    var sorted := SortedEvents(list, env);
    assert |sorted| == |multiset(sorted)| == |list|;
    assert |EventCandidates(list, env)| <= |sorted|;
    SliceLimit(EventCandidates(list, env), limit, |sorted|);
  }

  // ----- renderAnnouncements -----

  /** The announcements shown: newest first, then sliced. */
  function SelectAnnouncements(list: seq<Record>, limit: Option<int>, env: Env): seq<Record>
  {
    var sorted := SortBy(list, ByDate(env), IntGe);
    SliceTo(sorted, LimitOr(limit, |sorted|))
  }

  function AnnouncementCardOf(a: Record, env: Env): (c: Card)
    ensures c.AnnouncementCard? && CardSafe(c)
    ensures c.link.Some? <==> Truthy(Get(a, "link"))
  {
    AnnouncementCard(
      SafeHtml(Or(Get(a, "id"), Str(""))),
      SafeHtml(Get(a, "title")),
      SafeHtml(Str(env.formatDate(Get(a, "date"), Undefined))),
      SafeHtml(Get(a, "summary")),
      WhenTruthy(Get(a, "link"), Href(Get(a, "link"))))
  }

  /** `renderAnnouncements(list, limit)` */
  function RenderAnnouncements(list: seq<Record>, limit: Option<int>, env: Env): (r: Fragment)
    ensures FragmentSafe(r)
    ensures var sel := SelectAnnouncements(list, limit, env);
      r.Cards? && |r.cards| == |sel|
      && forall i | 0 <= i < |sel| ::
           && r.cards[i] == AnnouncementCardOf(sel[i], env) && r.cards[i].AnnouncementCard?
           && (r.cards[i].link.Some? <==> Truthy(Get(sel[i], "link")))
  {
    var sel := SelectAnnouncements(list, limit, env);
    Cards(seq(|sel|, i requires 0 <= i < |sel| => AnnouncementCardOf(sel[i], env)))
  }

  /**
   * Announcements come newest first (ties in input order); without a limit
   * every announcement is shown exactly once.
   */
  lemma AnnouncementsNewestFirst(list: seq<Record>, limit: Option<int>, env: Env)
    ensures DescendingByDate(env, SelectAnnouncements(list, limit, env))
    ensures limit.None? ==> multiset(SelectAnnouncements(list, limit, env)) == multiset(list)
    ensures forall d :: WithKey(SortBy(list, ByDate(env), IntGe), ByDate(env), d)
                        == WithKey(list, ByDate(env), d)
  {
    IntOrders();
    var sorted := SortBy(list, ByDate(env), IntGe);
    SortBySorted(list, ByDate(env), IntGe);
    var sel := SelectAnnouncements(list, limit, env);
    assert sel == sorted[..|sel|];
    forall i, j | 0 <= i < j < |sel| ensures DateOf(env, sel[i]) >= DateOf(env, sel[j]) {
      assert sel[i] == sorted[i] && sel[j] == sorted[j];
      assert IntGe(ByDate(env)(sorted[i]), ByDate(env)(sorted[j]));
    }
    if limit.None? {
      assert |sorted| == |multiset(sorted)|;
      assert sel == sorted;
    }
    forall d ensures WithKey(sorted, ByDate(env), d) == WithKey(list, ByDate(env), d) {
      SortByStable(list, ByDate(env), IntGe, d);
    }
  }

  // ----- renderProjects -----

  /** `list.slice(0, limit || list.length)`: the records shown, in input order. */
  function SelectInOrder(list: seq<Record>, limit: Option<int>): seq<Record>
  {
    SliceTo(list, LimitOr(limit, |list|))
  }

  /**
   * The projects and prizes renderers keep the input order: they show a prefix
   * of the input, all of it without a limit, `min(limit, n)` records for a
   * positive limit, and all but the last `-limit` for a negative one.
   */
  lemma InOrderSelection(list: seq<Record>, limit: Option<int>)
    ensures var sel := SelectInOrder(list, limit);
      && sel == list[..|sel|]
      && (limit.None? || limit.value == 0 ==> sel == list)
      && (limit.Some? && limit.value > 0 ==>
            |sel| == (if limit.value < |list| then limit.value else |list|))
      && (limit.Some? && limit.value < 0 ==>
            |sel| == (if |list| + limit.value > 0 then |list| + limit.value else 0))
  {
    SliceLimit(list, limit, |list|);
  }

  /** `(p.category || []).map` exists: the category is falsy or an array. */
  predicate HasTagList(p: Record)
  {
    var c := Get(p, "category");
    !Truthy(c) || c.Arr?
  }

  /** `p.category || []` for a record whose category is falsy or an array. */
  function TagsOf(p: Record): seq<Value>
  {
    var c := Get(p, "category");
    if Truthy(c) && c.Arr? then c.items else []
  }

  /** `p.images && p.images[0]` for a truthy `images`: its element or character 0. */
  function FirstOf(v: Value): Value
  {
    match v
    case Arr(items) => if |items| > 0 then items[0] else Undefined
    case Str(s) => if |s| > 0 then Str([s[0]]) else Undefined
    case Obj(fields) => if "0" in fields then fields["0"] else Undefined
    case _ => Undefined
  }

  const ProjectPlaceholder: string := "/assets/images/placeholder-1200x800.jpg"

  /** `(p.images && p.images[0]) || placeholder` */
  function ImageOf(p: Record): Value
  {
    var images := Get(p, "images");
    Or(if Truthy(images) then FirstOf(images) else images, Str(ProjectPlaceholder))
  }

  function ProjectCardOf(p: Record): (c: Card)
    ensures c.ProjectCard? && CardSafe(c)
    ensures |c.chips| == |TagsOf(p)|
    ensures c.details.Some? <==> Truthy(Get(p, "detailsLink"))
  {
    var tags := TagsOf(p);
    ProjectCard(
      SafeHtml(Or(Get(p, "id"), Str(""))),
      SafeHtml(ImageOf(p)),
      SafeHtml(Get(p, "title")),
      SafeHtml(Get(p, "title")),
      SafeHtml(Or(Get(p, "student"), Str(""))),
      SafeHtml(Or(Get(p, "grade"), Str(""))),
      SafeHtml(Or(Get(p, "summary"), Str(""))),
      seq(|tags|, i requires 0 <= i < |tags| => SafeHtml(tags[i])),
      WhenTruthy(Get(p, "detailsLink"), Href(Get(p, "detailsLink"))))
  }

  /**
   * `renderProjects(list, limit)`: throws exactly when a shown record has a
   * truthy `category` that is not an array (it has no `map`); otherwise one
   * escaped card per shown record, one chip per category, and a "View
   * details" block exactly for a truthy detailsLink.
   */
  function RenderProjects(list: seq<Record>, limit: Option<int>): (r: Completion<Fragment>)
    ensures var sel := SelectInOrder(list, limit);
      && (r.ThrowTypeError? <==>
            exists i | 0 <= i < |sel| :: Truthy(Get(sel[i], "category")) && !Get(sel[i], "category").Arr?)
      && (r.Normal? ==>
            && FragmentSafe(r.value) && r.value.Cards? && |r.value.cards| == |sel|
            && forall i | 0 <= i < |sel| ::
                 && r.value.cards[i] == ProjectCardOf(sel[i]) && r.value.cards[i].ProjectCard?
                 && (Truthy(Get(sel[i], "category")) ==> |r.value.cards[i].chips| == |Get(sel[i], "category").items|)
                 && (r.value.cards[i].details.Some? <==> Truthy(Get(sel[i], "detailsLink"))))
  {
    var sel := SelectInOrder(list, limit);
    if forall i | 0 <= i < |sel| :: HasTagList(sel[i]) then
      Normal(Cards(seq(|sel|, i requires 0 <= i < |sel| => ProjectCardOf(sel[i]))))
    else ThrowTypeError
  }

  // ----- renderMembers -----

  const MemberPlaceholder: string := "/assets/images/headshot-placeholder.jpg"

  lemma MailtoSafe()
    ensures Safe("mailto:")
  {
    assert forall i | 0 <= i < 7 :: "mailto:"[i] in "mailto:";
  }

  /** `mailto:${safeHTML(email)}` */
  function MailtoHref(email: Value): (r: string)
    ensures Safe(r)
  {
    MailtoSafe();
    SafeConcat("mailto:", SafeHtml(email));
    "mailto:" + SafeHtml(email)
  }

  function MemberCardOf(m: Record): (c: Card)
    ensures c.MemberCard? && CardSafe(c)
    ensures c.email.Some? <==> Truthy(Get(m, "email"))
  {
    MemberCard(
      SafeHtml(Or(Get(m, "photo"), Str(MemberPlaceholder))),
      SafeHtml(Get(m, "name")),
      SafeHtml(Get(m, "name")),
      SafeHtml(Get(m, "role")),
      SafeHtml(Or(Get(m, "bio"), Str(""))),
      WhenTruthy(Get(m, "email"), MailtoHref(Get(m, "email"))))
  }

  /**
   * `renderMembers(list)`: every member, in input order, escaped, with the
   * "Email" block exactly for a truthy email.
   */
  function RenderMembers(list: seq<Record>): (r: Fragment)
    ensures FragmentSafe(r)
    ensures r.Cards? && |r.cards| == |list|
    ensures forall i | 0 <= i < |list| :: r.cards[i] == MemberCardOf(list[i]) && r.cards[i].MemberCard?
    ensures forall i | 0 <= i < |list| :: r.cards[i].email.Some? <==> Truthy(Get(list[i], "email"))
  {
    Cards(seq(|list|, i requires 0 <= i < |list| => MemberCardOf(list[i])))
  }

  // ----- renderResources -----

  function ResourceRowOf(r: Record): (row: ResourceRow)
    ensures RowSafe(row)
  {
    ResourceRow(
      Href(Or(Get(r, "url"), Str("#"))),
      Truthy(Get(r, "external")),
      SafeHtml(Get(r, "title")),
      SafeHtml(Or(Get(r, "type"), Str(""))),
      SafeHtml(Or(Get(r, "size"), Str(""))))
  }

  /**
   * `renderResources(list)`: always the table wrapper, even for no resources,
   * with one escaped row per resource in input order; a resource opens in a
   * new tab exactly when its `external` is truthy.
   */
  function RenderResources(list: seq<Record>): (r: Fragment)
    ensures FragmentSafe(r)
    ensures r.ResourceTable? && |r.rows| == |list|
    ensures forall i | 0 <= i < |list| :: r.rows[i] == ResourceRowOf(list[i])
    ensures forall i | 0 <= i < |list| :: r.rows[i].newTab <==> Truthy(Get(list[i], "external"))
  {
    ResourceTable(seq(|list|, i requires 0 <= i < |list| => ResourceRowOf(list[i])))
  }

  // Proof steps for `MissingUrlLinksToFragment`: the fallback `#` survives
  // normalization and escaping.

  lemma HashNormalized()
    ensures NormalizeHref(Str("#")) == Str("#")
  {
    assert IsTrimmed("#");
    assert Trim("#") == "#";
    assert StartsWith("#", "#");
  }

  lemma HashEscaped()
    ensures Escape("#") == "#"
  {
    assert "#"[1..] == [];
    assert EscapeChar('#') == "#";
  }

  lemma HashLinkKept()
    ensures Href(Str("#")) == "#"
  {
    HashNormalized();
    HashEscaped();
    assert ToString(Str("#")) == "#";
  }

  /** A resource without a url links to `#`, which normalization leaves as it is. */
  lemma MissingUrlLinksToFragment(r: Record)
    requires !Truthy(Get(r, "url"))
    ensures ResourceRowOf(r).href == "#"
  {
    assert Or(Get(r, "url"), Str("#")) == Str("#");
    HashLinkKept();
  }

  // ----- renderPrizes -----

  function PrizeCardOf(p: Record): (c: Card)
    ensures c.PrizeCard? && CardSafe(c)
    ensures c.sponsor.Some? <==> Truthy(Get(p, "sponsor"))
    ensures c.category.Some? <==> Truthy(Get(p, "category"))
  {
    PrizeCard(
      SafeHtml(Or(Get(p, "id"), Str(""))),
      SafeHtml(Get(p, "title")),
      WhenTruthy(Get(p, "sponsor"), SafeHtml(Get(p, "sponsor"))),
      SafeHtml(Or(Get(p, "description"), Str(""))),
      WhenTruthy(Get(p, "category"), SafeHtml(Get(p, "category"))))
  }

  /**
   * `renderPrizes(list, limit)`: the shown prizes in input order, escaped,
   * with the sponsor and category blocks exactly for truthy fields.
   */
  function RenderPrizes(list: seq<Record>, limit: Option<int>): (r: Fragment)
    ensures FragmentSafe(r)
    ensures var sel := SelectInOrder(list, limit);
      r.Cards? && |r.cards| == |sel|
      && forall i | 0 <= i < |sel| ::
           && r.cards[i] == PrizeCardOf(sel[i]) && r.cards[i].PrizeCard?
           && (r.cards[i].sponsor.Some? <==> Truthy(Get(sel[i], "sponsor")))
           && (r.cards[i].category.Some? <==> Truthy(Get(sel[i], "category")))
  {
    var sel := SelectInOrder(list, limit);
    Cards(seq(|sel|, i requires 0 <= i < |sel| => PrizeCardOf(sel[i])))
  }

  // ----- renderWinners -----

  /** `w.year || 0` as the comparator's subtraction sees it. */
  function YearKey(env: Env, w: Record): int
  {
    var y := Get(w, "year");
    if !Truthy(y) then 0
    else match y
      case Num(n) => n
      case Bool(_) => 1
      case _ => env.number(ToString(y))
  }

  function ByYear(env: Env): Record -> int
  {
    w => YearKey(env, w)
  }

  /** The winners shown: by year, latest first, then sliced. */
  function SelectWinners(list: seq<Record>, limit: Option<int>, env: Env): seq<Record>
  {
    var sorted := SortBy(list, ByYear(env), IntGe);
    SliceTo(sorted, LimitOr(limit, |sorted|))
  }

  function WinnerCardOf(w: Record): (c: Card)
    ensures c.WinnerCard? && CardSafe(c)
    ensures c.credit.Some? <==> Truthy(Get(w, "student"))
    ensures c.category.Some? <==> Truthy(Get(w, "category"))
    ensures c.link.Some? <==> Truthy(Get(w, "link"))
  {
    WinnerCard(
      SafeHtml(Get(w, "year")),
      SafeHtml(Get(w, "prize")),
      SafeHtml(Get(w, "project")),
      WhenTruthy(Get(w, "student"), SafeHtml(Get(w, "student"))),
      WhenTruthy(Get(w, "category"), SafeHtml(Get(w, "category"))),
      WhenTruthy(Get(w, "link"), Href(Get(w, "link"))))
  }

  /** `renderWinners(list, limit)` */
  function RenderWinners(list: seq<Record>, limit: Option<int>, env: Env): (r: Fragment)
    ensures FragmentSafe(r)
    ensures var sel := SelectWinners(list, limit, env);
      r.Cards? && |r.cards| == |sel|
      && forall i | 0 <= i < |sel| ::
           && r.cards[i] == WinnerCardOf(sel[i]) && r.cards[i].WinnerCard?
           && (r.cards[i].credit.Some? <==> Truthy(Get(sel[i], "student")))
           && (r.cards[i].category.Some? <==> Truthy(Get(sel[i], "category")))
           && (r.cards[i].link.Some? <==> Truthy(Get(sel[i], "link")))
  {
    var sel := SelectWinners(list, limit, env);
    Cards(seq(|sel|, i requires 0 <= i < |sel| => WinnerCardOf(sel[i])))
  }

  /**
   * Winners come latest year first, a missing or falsy year counting as 0;
   * without a limit every winner is shown exactly once.
   */
  lemma WinnersLatestFirst(list: seq<Record>, limit: Option<int>, env: Env)
    ensures var sel := SelectWinners(list, limit, env);
      forall i, j | 0 <= i < j < |sel| :: YearKey(env, sel[i]) >= YearKey(env, sel[j])
    ensures limit.None? ==> multiset(SelectWinners(list, limit, env)) == multiset(list)
    ensures forall w :: !Truthy(Get(w, "year")) ==> YearKey(env, w) == 0
  {
    IntOrders();
    var sorted := SortBy(list, ByYear(env), IntGe);
    SortBySorted(list, ByYear(env), IntGe);
    var sel := SelectWinners(list, limit, env);
    assert sel == sorted[..|sel|];
    forall i, j | 0 <= i < j < |sel| ensures YearKey(env, sel[i]) >= YearKey(env, sel[j]) {
      assert sel[i] == sorted[i] && sel[j] == sorted[j];
      assert IntGe(ByYear(env)(sorted[i]), ByYear(env)(sorted[j]));
    }
    if limit.None? {
      assert |sorted| == |multiset(sorted)|;
      assert sel == sorted;
    }
  }
}
