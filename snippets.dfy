/** The detail view of one tag (src/App.jsx:211-342): the two build-tool snippets
    with the tag's version substituted, and the four links. */
module Snippets {
  import opened Text
  import opened Tags

  const GradleHead: string :=
    "repositories {\n    maven {\n        url = \"https://sandro642.github.io/connectlib/jar\"\n    }\n}\n\ndependencies {\n    implementation 'fr.sandro642.github:ConnectLib:"
  const GradleTail: string := "'\n}"

  const MavenHead: string :=
    "<repository>\n    <id>connectlib</id>\n    <url>https://sandro642.github.io/connectlib/jar</url>\n</repository>\n\n<dependency>\n    <groupId>fr.sandro642.github</groupId>\n    <artifactId>ConnectLib</artifactId>\n    <version>"
  const MavenTail: string := "</version>\n</dependency>"

  const ReleasePagePrefix: string := "https://github.com/Sandro642/ConnectLib/releases/tag/"

  /** The Gradle dependency block shown and copied for `version`. */
  function GradleSnippet(version: string): (r: string)
    ensures Contains(r, version)
    ensures IsPrefix(GradleHead, r) && |r| == |GradleHead| + |version| + |GradleTail|
    ensures r[|GradleHead|..|r| - |GradleTail|] == version && r[|r| - |GradleTail|..] == GradleTail
  {
    ContainsInfix(GradleHead, version, GradleTail);
    GradleHead + version + GradleTail
  }

  /** The Maven dependency block shown and copied for `version`. */
  function MavenSnippet(version: string): (r: string)
    ensures Contains(r, version)
    ensures IsPrefix(MavenHead, r) && |r| == |MavenHead| + |version| + |MavenTail|
    ensures r[|MavenHead|..|r| - |MavenTail|] == version && r[|r| - |MavenTail|..] == MavenTail
  {
    ContainsInfix(MavenHead, version, MavenTail);
    MavenHead + version + MavenTail
  }

  /** The source-repository page of a tag. */
  function ReleasePageUrl(name: string): (r: string)
    ensures IsPrefix(ReleasePagePrefix, r) && r[|ReleasePagePrefix|..] == name
  {
    ReleasePagePrefix + name
  }

  /** What the detail view renders for a selected tag. */
  datatype Detail = Detail(
    title: string, gradle: string, maven: string,
    jarLink: string, zipLink: string, tarLink: string, releaseLink: string)

  function DetailView(t: ViewTag): (d: Detail)
    ensures d.title == t.name && d.jarLink == t.jarUrl
    ensures d.zipLink == t.zipball && d.tarLink == t.tarball
    ensures Contains(d.gradle, t.version) && Contains(d.maven, t.version)
    ensures IsPrefix(ReleasePagePrefix, d.releaseLink) && d.releaseLink[|ReleasePagePrefix|..] == t.name
  {
    Detail(t.name, GradleSnippet(t.version), MavenSnippet(t.version),
           t.jarUrl, t.zipball, t.tarball, ReleasePageUrl(t.name))
  }

  /** Both snippets of a formatted tag contain its name, and each snippet
      determines the name: two tags with the same snippet have the same name. */
  lemma DetailShowsExactlyTheTag(t: ViewTag, u: ViewTag)
    requires t.version == t.name && u.version == u.name
    ensures Contains(DetailView(t).gradle, t.name)
    ensures Contains(DetailView(t).maven, t.name)
    ensures DetailView(t).gradle == DetailView(u).gradle ==> t.name == u.name
    ensures DetailView(t).maven == DetailView(u).maven ==> t.name == u.name
    ensures DetailView(t).releaseLink == DetailView(u).releaseLink ==> t.name == u.name
  {
    ContainsInfix(GradleHead, t.name, GradleTail);
    ContainsInfix(MavenHead, t.name, MavenTail);
    if DetailView(t).gradle == DetailView(u).gradle {
      InfixInjective(GradleHead, t.name, u.name, GradleTail);
    }
    if DetailView(t).maven == DetailView(u).maven {
      InfixInjective(MavenHead, t.name, u.name, MavenTail);
    }
    if DetailView(t).releaseLink == DetailView(u).releaseLink {
      InfixInjective(ReleasePagePrefix, t.name, u.name, "");
    }
  }

  /** The artifact link of a formatted tag in the detail view names the tag. */
  lemma DetailJarLinkNamesTag(raw: seq<RawTag>, i: nat)
    requires i < |raw|
    ensures JarUrlName(DetailView(FormatTags(raw)[i]).jarLink) == raw[i].name
  {
    FormatTagsAt(raw, i);
    JarUrlRoundTrip(raw[i].name);
  }
}
