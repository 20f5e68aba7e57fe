/**
 * `hydrateMountpoints`: every element carrying `data-json` and
 * `data-component` gets its content from the renderer the component names,
 * applied to the loaded data file and the element's `data-limit`. The fetch
 * itself is outside the model: its outcome for each element is an input.
 */
module Hydration {
  import opened JsValues
  import opened Renderers

  /**
   * What `Number(el.getAttribute('data-limit'))` gives: `Absent` is the missing
   * attribute (`Number(null)` is 0), `NotANumber` a value `Number` cannot read.
   */
  datatype LimitAttr = Absent | NotANumber | Numeric(n: int)

  /** `Number(...) || undefined` */
  function LimitOf(attr: LimitAttr): Option<int>
  {
    match attr
    case Numeric(n) => if n == 0 then None else Some(n)
    case _ => None
  }

  /**
   * A missing, non-numeric or zero `data-limit` means "no limit"; any other
   * number, negative ones included, is passed on unchanged.
   */
  lemma LimitOfCases(attr: LimitAttr)
    ensures LimitOf(attr).None? <==> attr.Absent? || attr.NotANumber? || attr == Numeric(0)
    ensures attr.Numeric? && attr.n != 0 ==> LimitOf(attr) == Some(attr.n)
  {
  }

  /** What a renderer is given: the loaded records, the limit, and the browser environment. */
  type Renderer = (seq<Record>, Option<int>, Env) -> Completion<Fragment>

  /**
   * The script's `renderers` table. Only `renderProjects` can throw;
   * `renderMembers` and `renderResources` ignore the limit.
   */
  const Table: map<string, Renderer> := map[
    "events" := (data, limit, env) => Normal(RenderEvents(data, limit, env)),
    "announcements" := (data, limit, env) => Normal(RenderAnnouncements(data, limit, env)),
    "projects" := (data, limit, env) => RenderProjects(data, limit),
    "members" := (data, limit, env) => Normal(RenderMembers(data)),
    "resources" := (data, limit, env) => Normal(RenderResources(data)),
    "prizes" := (data, limit, env) => Normal(RenderPrizes(data, limit)),
    "winners" := (data, limit, env) => Normal(RenderWinners(data, limit, env))]

  /**
   * The table has exactly the seven component names; every renderer in it
   * escapes what it interpolates, and only the one for "projects" throws.
   */
  lemma TableSafe(name: string, data: seq<Record>, limit: Option<int>, env: Env)
    ensures Table.Keys ==
      {"events", "announcements", "projects", "members", "resources", "prizes", "winners"}
    ensures name in Table ==>
      var r := Table[name](data, limit, env);
      && (r.Normal? ==> FragmentSafe(r.value))
      && (name != "projects" ==> r.Normal?)
  {
  }

  const HydrateFailure: string := "Unable to load content. Please try again later."

  /**
   * The content one mount point ends with under the table `renderers`: the
   * fallback card when the load fails or the renderer throws, "" for a name
   * that is not in the table, otherwise the renderer's output.
   */
  function Hydrated(renderers: map<string, Renderer>, component: string, attr: LimitAttr, load: Load, env: Env): Fragment
  {
    match load
    case LoadFailed => NoticeCard(HydrateFailure)
    case Loaded(data) =>
      if component !in renderers then Blank
      else
        match renderers[component](data, LimitOf(attr), env)
        case ThrowTypeError => NoticeCard(HydrateFailure)
        case Normal(f) => f
  }

  /**
   * Under the script's table a hydrated element is always escaped; a failed
   * load shows the fallback card, a name outside the table leaves it empty,
   * and a known name shows the renderer's output, or the fallback card when
   * `renderProjects` throws.
   */
  lemma HydratedCases(component: string, attr: LimitAttr, load: Load, env: Env)
    ensures var r := Hydrated(Table, component, attr, load, env);
      && FragmentSafe(r)
      && (load.LoadFailed? ==> r == NoticeCard(HydrateFailure))
      && (load.Loaded? && component !in Table ==> r == Blank)
      && (load.Loaded? && component in Table && component != "projects" ==>
            r == Table[component](load.records, LimitOf(attr), env).value)
      && (load.Loaded? && component == "projects" ==>
            var rendered := RenderProjects(load.records, LimitOf(attr));
            r == if rendered.Normal? then rendered.value else NoticeCard(HydrateFailure))
  {
    if load.Loaded? && component in Table {
      TableSafe(component, load.records, LimitOf(attr), env);
    }
  }

  /** A `[data-json][data-component]` element. */
  class MountPoint {
    const source: string
    const component: string
    const limit: LimitAttr
    var content: Fragment

    constructor(source: string, component: string, limit: LimitAttr, content: Fragment)
      ensures this.source == source && this.component == component && this.limit == limit
      ensures this.content == content
    {
      this.source := source;
      this.component := component;
      this.limit := limit;
      this.content := content;
    }

    /** The element shows what its component, limit and `load` call for. */
    predicate HoldsContentFor(renderers: map<string, Renderer>, load: Load, env: Env)
      reads this
    {
      content == Hydrated(renderers, component, limit, load, env)
    }
  }

  /**
   * The loop of `hydrateMountpoints`, in document order, over a renderer
   * table (the script passes `Table`); `loads[i]` is how loading
   * `mounts[i].source` ended. Each element ends with the content its
   * component, limit and load call for, and no other object is written.
   */
  method HydrateMountpoints(renderers: map<string, Renderer>, mounts: seq<MountPoint>, loads: seq<Load>, env: Env)
    requires |loads| == |mounts|
    requires forall i, j | 0 <= i < j < |mounts| :: mounts[i] != mounts[j]
    modifies mounts
    ensures forall i | 0 <= i < |mounts| :: mounts[i].HoldsContentFor(renderers, loads[i], env)
  {
    for i := 0 to |mounts|
      invariant forall k | 0 <= k < i :: mounts[k].HoldsContentFor(renderers, loads[k], env)
    {
      mounts[i].content := Hydrated(renderers, mounts[i].component, mounts[i].limit, loads[i], env);
    }
  }
}
