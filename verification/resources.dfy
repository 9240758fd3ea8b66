/**
 * The resource store of upstream/upstream.go: `seedResources` fills the
 * process-wide map once, `resourceIndexHandler` returns a prefix of it
 * re-keyed from 0, and `resourceShowHandler` looks one resource up by id.
 */
module Resources {
  import opened Wrappers
  import opened Http
  import opened Letters
  import opened Delay

  /** How many resources `seedResources` creates. */
  const SeedCount: nat := 100
  /** The length of every seeded name. */
  const NameLength: nat := 10
  /** The page size used when `limit` is missing, zero or not a number. */
  const DefaultLimit: nat := 10
  const NotFoundText: string := "Not Found"

  /**
   * One random source per seeded resource (each iteration of the seeding
   * loop builds a fresh one), each supplying enough accepted groups for a name.
   */
  predicate NameSources(sources: seq<seq<Int63>>) {
    && |sources| == SeedCount
    && forall i :: 0 <= i < |sources| ==> 1 <= |sources[i]| && NameLength <= |AcceptedOf(sources[i])|
  }

  /** A map whose keys are exactly `0 .. k - 1` has `k` entries. */
  lemma {:induction false} DenseMapSize<V>(m: map<int, V>, k: nat)
    requires forall i :: i in m <==> 0 <= i < k
    ensures |m| == k
  {
    if k > 0 {
      var m' := m - {k - 1};
      assert forall i :: i in m' <==> 0 <= i < k - 1;
      DenseMapSize(m', k - 1);
      assert m'.Keys == m.Keys - {k - 1};
    } else {
      assert forall i :: i !in m;
      assert m == map[];
    }
  }

  /** The store `seedResources` builds from the given name sources. */
  function SeededResources(sources: seq<seq<Int63>>): (m: map<int, Resource>)
    requires NameSources(sources)
    ensures forall i :: i in m <==> 0 <= i < SeedCount
    ensures |m| == SeedCount
    ensures forall i :: i in m ==> m[i].id == i && |m[i].name| == NameLength
    ensures forall i, j :: i in m && 0 <= j < |m[i].name| ==> m[i].name[j] in LetterBytes
  {
    var m := map i | 0 <= i < SeedCount :: Resource(i, RandomLetters(NameLength, sources[i]));
    DenseMapSize(m, SeedCount);
    SeededNamesInAlphabet(sources);
    m
  }

  /** Every seeded name is made of letters of the alphabet. */
  lemma SeededNamesInAlphabet(sources: seq<seq<Int63>>)
    requires NameSources(sources)
    ensures forall i, j :: 0 <= i < SeedCount && 0 <= j < NameLength ==>
      RandomLetters(NameLength, sources[i])[j] in LetterBytes
  {
    forall i | 0 <= i < SeedCount {
      RandomLettersInAlphabet(NameLength, sources[i]);
    }
  }

  /** The process-wide `resources` map. */
  class ResourceStore {
    var resources: map<int, Resource>

    /** Before seeding the map is empty (Go's nil map). */
    constructor ()
      ensures resources == map[]
    {
      resources := map[];
    }

    /**
     * `seedResources`: replaces the map by one with keys `0 .. 99`, entry `i`
     * holding id `i` and a ten-letter name drawn from `sources[i]`.
     */
    method SeedResources(sources: seq<seq<Int63>>)
      requires NameSources(sources)
      modifies this
      ensures resources == SeededResources(sources)
    {
      resources := map[];
      for i := 0 to SeedCount
        invariant resources == map j | 0 <= j < i :: Resource(j, RandomLetters(NameLength, sources[j]))
      {
        var name, draws := RandStringBytesMaskImprSrc(NameLength, sources[i]);
        resources := resources[i := Resource(i, name)];
      }
    }
  }

  /** The smaller of two integers. */
  function Min(a: int, b: int): (m: int)
    ensures m <= a && m <= b
    ensures m == a || m == b
  {
    if a < b then a else b
  }

  /** The page size `resourceIndexHandler` uses: the `limit` argument, or 10 when that is zero. */
  function EffectiveLimit(limitArg: nat): (limit: nat)
    ensures limit > 0
    ensures limitArg == 0 ==> limit == DefaultLimit
    ensures limitArg != 0 ==> limit == limitArg
  {
    if limitArg == 0 then DefaultLimit else limitArg
  }

  /** Go's map read `resources[i]`: the entry, or the zero resource `{0, ""}` when the key is absent. */
  function ResourceAt(resources: map<int, Resource>, i: int): Resource {
    if i in resources then resources[i] else Resource(0, "")
  }

  /**
   * The page `resourceIndexHandler` builds: keys `0 .. min(limit, len(resources)) - 1`,
   * each mapped to what a Go map read returns for it.
   */
  function IndexPage(resources: map<int, Resource>, limit: nat): (page: map<int, Resource>)
    ensures forall i :: i in page <==> 0 <= i < Min(limit, |resources|)
    ensures |page| == Min(limit, |resources|)
    ensures forall i :: i in page ==> page[i] == ResourceAt(resources, i)
  {
    var page := map i | 0 <= i < Min(limit, |resources|) :: ResourceAt(resources, i);
    DenseMapSize(page, Min(limit, |resources|));
    page
  }

  /**
   * `resourceIndexHandler`: after `applyDelay`, a JSON object mapping each of
   * `0 .. min(limit, len(resources)) - 1` to the resource read at that key.
   */
  method ResourceIndexHandler(req: Request, r: int, p: Parsers, resources: map<int, Resource>) returns (resp: Response)
    requires 0 <= r < DrawBound
    ensures resp.status == StatusOK && resp.contentType == ApplicationJson
    ensures resp.sleeps == SleepsOf(ApplyDelay(req, r, p))
    ensures ApplyDelay(req, r, p).Failure? <==> resp.body == NoBody
    ensures ApplyDelay(req, r, p).Success? ==> resp.body == ResourceMapJson(IndexPage(resources, EffectiveLimit(req.limitArg)))
    ensures resp.body.ResourceMapJson? ==>
      && (forall i :: i in resp.body.entries <==> 0 <= i < Min(EffectiveLimit(req.limitArg), |resources|))
      && |resp.body.entries| == Min(EffectiveLimit(req.limitArg), |resources|)
      && (forall i :: i in resp.body.entries ==> resp.body.entries[i] == ResourceAt(resources, i))
  {
    var stage := ApplyDelay(req, r, p);
    if stage.Failure? {
      return Response(StatusOK, ApplicationJson, NoBody, SleepsOf(stage));
    }
    var limit := req.limitArg;
    if limit == 0 {
      limit := DefaultLimit;
    }
    var subset: map<int, Resource> := map[];
    var i := 0;
    while i < Min(limit, |resources|)
      invariant 0 <= i <= Min(limit, |resources|)
      invariant forall j :: j in subset <==> 0 <= j < i
      invariant forall j :: j in subset ==> subset[j] == ResourceAt(resources, j)
    {
      subset := subset[i := ResourceAt(resources, i)];
      i := i + 1;
    }
    DenseMapSize(subset, i);
    assert subset == IndexPage(resources, limit);
    resp := Response(StatusOK, ApplicationJson, ResourceMapJson(subset), SleepsOf(stage));
  }

  /**
   * `resourceShowHandler`: after `applyDelay`, the `id` path parameter is
   * parsed as an integer (nothing is written if it does not parse) and looked
   * up exactly; a missing key gives 404 with the text "Not Found".
   */
  function ResourceShowHandler(req: Request, r: int, p: Parsers, resources: map<int, Resource>): (resp: Response)
    requires 0 <= r < DrawBound
    ensures resp.contentType == ApplicationJson
    ensures resp.sleeps == SleepsOf(ApplyDelay(req, r, p))
    ensures resp.body == NoBody <==> ApplyDelay(req, r, p).Failure? || p.parseInt(ByName(req, "id")).None?
    ensures resp.status == StatusNotFound <==>
      ApplyDelay(req, r, p).Success? && p.parseInt(ByName(req, "id")).Some? && p.parseInt(ByName(req, "id")).value !in resources
    ensures resp.status == StatusNotFound ==> resp.body == Text(NotFoundText)
    ensures resp.status != StatusNotFound ==> resp.status == StatusOK
    ensures resp.body.ResourceJson? <==>
      ApplyDelay(req, r, p).Success? && p.parseInt(ByName(req, "id")).Some? && p.parseInt(ByName(req, "id")).value in resources
    ensures resp.body.ResourceJson? ==> resp.body.resource == resources[p.parseInt(ByName(req, "id")).value]
  {
    var stage := ApplyDelay(req, r, p);
    if stage.Failure? then Response(StatusOK, ApplicationJson, NoBody, SleepsOf(stage))
    else
      match p.parseInt(ByName(req, "id"))
      case None => Response(StatusOK, ApplicationJson, NoBody, SleepsOf(stage))
      case Some(id) =>
        if id !in resources then Response(StatusNotFound, ApplicationJson, Text(NotFoundText), SleepsOf(stage))
        else Response(StatusOK, ApplicationJson, ResourceJson(resources[id]), SleepsOf(stage))
  }

  /**
   * On the seeded store, an id is found iff it lies in `0 .. 99`, and what is
   * found carries that id and a ten-letter name; any other id gives 404.
   */
  lemma ShowSeeded(sources: seq<seq<Int63>>, req: Request, r: int, p: Parsers, id: int)
    requires NameSources(sources) && 0 <= r < DrawBound
    requires ApplyDelay(req, r, p).Success? && p.parseInt(ByName(req, "id")) == Some(id)
    ensures var resp := ResourceShowHandler(req, r, p, SeededResources(sources));
      && (resp.status == StatusNotFound <==> id < 0 || id >= SeedCount)
      && (0 <= id < SeedCount ==> resp.body.ResourceJson? && resp.body.resource.id == id && |resp.body.resource.name| == NameLength)
  {
  }

  /**
   * On the seeded store the index page holds `min(limit, 100)` entries, and
   * the entry under key `i` is the resource seeded at `i`: id `i` and the
   * name drawn from the `i`-th source.
   */
  lemma IndexSeeded(sources: seq<seq<Int63>>, limitArg: nat)
    requires NameSources(sources)
    ensures var page := IndexPage(SeededResources(sources), EffectiveLimit(limitArg));
      && |page| == Min(EffectiveLimit(limitArg), SeedCount)
      && forall i :: i in page ==> page[i] == Resource(i, RandomLetters(NameLength, sources[i]))
  {
  }
}
