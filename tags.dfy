/** Release tags: the raw records of the tag list endpoint and the view records
    the downloads section renders (src/App.jsx:37-45). */
module Tags {
  import opened Text

  /** A tag as received: its name, the two archive links and the commit reference. */
  datatype RawTag = RawTag(name: string, zipball: string, tarball: string, commit: string)

  /** A tag as shown: a 1-based position `id`, `version` (a copy of `name`)
      and the derived artifact link `jarUrl`. */
  datatype ViewTag = ViewTag(
    id: nat, name: string, version: string,
    zipball: string, tarball: string, commit: string, jarUrl: string)

  const JarUrlPrefix: string := "https://sandro642.github.io/connectlib/jar/fr/sandro642/github/ConnectLib/"
  const JarFileInfix: string := "/ConnectLib-"
  const JarSuffix: string := ".jar"

  /** The guessed location of a tag's jar: `name` substituted twice into a fixed template. */
  function JarUrl(name: string): (u: string)
    ensures |u| == |JarUrlPrefix| + 2 * |name| + |JarFileInfix| + |JarSuffix|
  {
    JarUrlPrefix + name + JarFileInfix + name + JarSuffix
  }

  /** Reads the tag name back out of an artifact link, by position. */
  function JarUrlName(u: string): string {
    var fixed := |JarUrlPrefix| + |JarFileInfix| + |JarSuffix|;
    if |u| < fixed then "" else u[|JarUrlPrefix|..|JarUrlPrefix| + (|u| - fixed) / 2]
  }

  lemma JarUrlRoundTrip(name: string)
    ensures JarUrlName(JarUrl(name)) == name
  {
    var u := JarUrl(name);
    assert u[|JarUrlPrefix|..|JarUrlPrefix| + |name|] == name;
  }

  /** Distinct tag names always get distinct artifact links. */
  lemma JarUrlInjective(a: string, b: string)
    requires JarUrl(a) == JarUrl(b)
    ensures a == b
  {
    JarUrlRoundTrip(a);
    JarUrlRoundTrip(b);
  }

  /** The view record of `t` at 1-based position `id`. */
  function FormatTag(t: RawTag, id: nat): (v: ViewTag)
    ensures v.id == id && v.name == t.name && v.version == t.name
    ensures v.zipball == t.zipball && v.tarball == t.tarball && v.commit == t.commit
    ensures JarUrlName(v.jarUrl) == t.name
  {
    JarUrlRoundTrip(t.name);
    ViewTag(id, t.name, t.name, t.zipball, t.tarball, t.commit, JarUrl(t.name))
  }

  /** `raw.map((tag, index) => ...)` with positions counted from `first`. */
  function FormatFrom(raw: seq<RawTag>, first: nat): (r: seq<ViewTag>)
    ensures |r| == |raw|
    decreases |raw|
  {
    if raw == [] then [] else [FormatTag(raw[0], first)] + FormatFrom(raw[1..], first + 1)
  }

  /** The formatting step of a successful fetch (src/App.jsx:37-45): one record per
      tag, in order, the record of tag `i` carrying id `i + 1`. */
  function FormatTags(raw: seq<RawTag>): (r: seq<ViewTag>)
    ensures |r| == |raw|
    ensures forall i :: 0 <= i < |raw| ==> r[i] == FormatTag(raw[i], i + 1)
  {
    FormatFromAll(raw, 1);
    FormatFrom(raw, 1)
  }

  lemma FormatFromAll(raw: seq<RawTag>, first: nat)
    ensures forall i :: 0 <= i < |raw| ==> FormatFrom(raw, first)[i] == FormatTag(raw[i], first + i)
  {
    forall i | 0 <= i < |raw| {
      FormatFromAt(raw, first, i);
    }
  }

  lemma {:induction false} FormatFromAt(raw: seq<RawTag>, first: nat, i: nat)
    requires i < |raw|
    ensures FormatFrom(raw, first)[i] == FormatTag(raw[i], first + i)
    decreases |raw|
  {
    if i > 0 {
      FormatFromAt(raw[1..], first + 1, i - 1);
    }
  }

  /** Element `i` of the formatted list is tag `i` of the input with id `i + 1`,
      version equal to its name and the templated artifact link. */
  lemma FormatTagsAt(raw: seq<RawTag>, i: nat)
    requires i < |raw|
    ensures |FormatTags(raw)| == |raw|
    ensures FormatTags(raw)[i].id == i + 1
    ensures FormatTags(raw)[i].name == raw[i].name
    ensures FormatTags(raw)[i].version == raw[i].name
    ensures FormatTags(raw)[i].zipball == raw[i].zipball
    ensures FormatTags(raw)[i].tarball == raw[i].tarball
    ensures FormatTags(raw)[i].commit == raw[i].commit
    ensures FormatTags(raw)[i].jarUrl == JarUrlPrefix + raw[i].name + "/ConnectLib-" + raw[i].name + ".jar"
  {
    FormatFromAt(raw, 1, i);
  }

  /** The fields of a view record that came from the raw record. */
  function Unformat(v: ViewTag): RawTag {
    RawTag(v.name, v.zipball, v.tarball, v.commit)
  }

  function RawOf(vs: seq<ViewTag>): (r: seq<RawTag>)
    ensures |r| == |vs|
    ensures forall i :: 0 <= i < |vs| ==> r[i] == Unformat(vs[i])
  {
    seq(|vs|, i requires 0 <= i < |vs| => Unformat(vs[i]))
  }

  /** A list of view records as formatting produces them: ids by position,
      version equal to name, and the templated artifact link. */
  ghost predicate WellFormed(vs: seq<ViewTag>) {
    forall i :: 0 <= i < |vs| ==>
      vs[i].id == i + 1 && vs[i].version == vs[i].name && vs[i].jarUrl == JarUrl(vs[i].name)
  }

  /** Formatting loses nothing of the raw records. */
  lemma FormatRoundTrip(raw: seq<RawTag>)
    ensures RawOf(FormatTags(raw)) == raw
  {
    forall i | 0 <= i < |raw|
      ensures RawOf(FormatTags(raw))[i] == raw[i]
    {
      FormatTagsAt(raw, i);
    }
  }

  /** The well-formed lists are exactly the formatted ones. */
  lemma WellFormedIffFormatted(vs: seq<ViewTag>)
    ensures WellFormed(vs) <==> vs == FormatTags(RawOf(vs))
  {
    var raw := RawOf(vs);
    forall i | 0 <= i < |vs| {
      FormatTagsAt(raw, i);
    }
    if WellFormed(vs) {
      assert forall i :: 0 <= i < |vs| ==> vs[i] == FormatTags(raw)[i];
    }
  }

  /** Formatting always yields a well-formed list. */
  lemma FormatTagsWellFormed(raw: seq<RawTag>)
    ensures WellFormed(FormatTags(raw))
  {
    FormatRoundTrip(raw);
    WellFormedIffFormatted(FormatTags(raw));
  }
}
