/** The two small pieces of logic on the landing page outside the downloads
    section: the latest-version badge (src/App.jsx:4-21) and the feature
    carousel (src/App.jsx:351, 359-364, 479). */
module Landing {
  import opened Tags
  import opened Filter
  import opened Paging

  /** How the fetch of the badge ends: a JSON array, some other JSON value, or a
      failure (network error or unreadable body). */
  datatype TagsResponse = JsonArray(items: seq<RawTag>) | JsonOther | RequestFailed

  /** The text the badge stores once the fetch has ended (src/App.jsx:10-17). */
  function LatestVersionText(resp: TagsResponse): (v: string)
    ensures resp.RequestFailed? ==> v == "Error"
    ensures resp.JsonOther? ==> v == "No tags found"
    ensures resp.JsonArray? && resp.items == [] ==> v == "No tags found"
    ensures resp.JsonArray? && resp.items != [] ==> v == resp.items[0].name
  {
    match resp
    case RequestFailed => "Error"
    case JsonOther => "No tags found"
    case JsonArray(items) => if |items| > 0 then items[0].name else "No tags found"
  }

  /** What the badge renders for its stored text (src/App.jsx:20): the text, or
      "loading..." while it is still empty. */
  function VersionLabel(v: string): (r: string)
    ensures r != ""
    ensures v != "" ==> r == v
    ensures v == "" ==> r == "loading..."
  {
    if v == "" then "loading..." else v
  }

  /** The badge agrees with the downloads section: for the same non-empty tag
      list, the latest version is the version on the first card of page 1 when
      nothing is searched. */
  lemma LatestIsFirstCard(raw: seq<RawTag>)
    requires raw != []
    ensures PageSlice(FilterTags(FormatTags(raw), ""), 1) != []
    ensures PageSlice(FilterTags(FormatTags(raw), ""), 1)[0].version == LatestVersionText(JsonArray(raw))
  {
    FilterEmptyTerm(FormatTags(raw));
    FormatTagsAt(raw, 0);
    PageSliceInRange(FormatTags(raw), 1);
  }

  /** The number of feature cards (src/App.jsx:366-373). */
  const FeatureCount: nat := 6

  /** JavaScript's `%`, whose remainder takes the sign of the dividend. */
  function JsRem(a: int, b: int): (r: int)
    requires b > 0
    ensures a >= 0 ==> r == a % b
    ensures a < 0 ==> -b < r <= 0 && r == a + b * ((-a) / b)
  {
    if a >= 0 then a % b
    else
      var q, m := (-a) / b, (-a) % b;
      assert -a == b * q + m;
      -m
  }

  /** The carousel step `(prev + 1) % 6` (src/App.jsx:361): the next card, wrapping
      from the last card back to the first. */
  function NextFeature(prev: int): (r: int)
    ensures prev >= -1 ==> 0 <= r < FeatureCount
    ensures 0 <= prev < FeatureCount - 1 ==> r == prev + 1
    ensures prev == FeatureCount - 1 ==> r == 0
  {
    JsRem(prev + 1, FeatureCount)
  }

  /** The card highlighted after `k` steps from `p`. */
  function Steps(p: int, k: nat): int {
    if k == 0 then p else NextFeature(Steps(p, k - 1))
  }

  /** From any card, `k` steps land on card `(p + k) mod 6`: the carousel visits
      every card in turn and comes back after six steps. */
  lemma {:induction false} StepsLand(p: int, k: nat)
    requires 0 <= p < FeatureCount
    ensures Steps(p, k) == (p + k) % FeatureCount
  {
    if k > 0 {
      StepsLand(p, k - 1);
      RemainderStep(p + k - 1);
    }
  }

  /** The remainder by the card count of a successor. */
  lemma RemainderStep(x: nat)
    ensures (x + 1) % FeatureCount ==
      if x % FeatureCount == FeatureCount - 1 then 0 else x % FeatureCount + 1
  {
    var q, d := x % FeatureCount, x / FeatureCount;
    assert x == FeatureCount * d + q;
    if q == FeatureCount - 1 {
      assert x + 1 == FeatureCount * (d + 1);
    } else {
      assert x + 1 == FeatureCount * d + (q + 1);
    }
  }

  /** The highlighted feature card of the landing page. */
  class Carousel {
    var activeFeature: int

    ghost predicate Valid()
      reads this
    {
      0 <= activeFeature < FeatureCount
    }

    constructor ()
      ensures Valid() && activeFeature == 0
    {
      activeFeature := 0;
    }

    /** One timer tick (src/App.jsx:360-362). */
    method Tick()
      requires Valid()
      modifies this
      ensures Valid()
      ensures activeFeature == if old(activeFeature) == FeatureCount - 1 then 0 else old(activeFeature) + 1
    {
      activeFeature := NextFeature(activeFeature);
    }

    /** Hovering over card `index` (src/App.jsx:479). */
    method Hover(index: int)
      requires Valid()
      requires 0 <= index < FeatureCount
      modifies this
      ensures Valid() && activeFeature == index
    {
      activeFeature := index;
    }
  }
}
