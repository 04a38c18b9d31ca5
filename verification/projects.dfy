/**
 * The project list shown on the page, built from the repository listing of
 * the owner's account. A listing that could not be obtained, or one on which
 * the transform throws, is replaced wholesale by a fixed three-entry list.
 */
module Projects {
  import opened Wrappers
  import opened JsMath

  /**
   * One listed repository. `name` is `None` when the repository has no name,
   * `ownerLogin` is `None` when it has no owner object, and `description` is
   * `None` when it is null.
   */
  datatype Repo = Repo(name: Option<string>, description: Option<string>, htmlUrl: string, ownerLogin: Option<string>)

  datatype Project = Project(name: string, description: string, url: string, image: string)

  const Owner: string := "dinonuwg"
  const MaxShown: nat := 6
  const NoDescription: string := "No description available."
  const PreviewBase: string := "https://opengraph.githubassets.com/1/"
  const OwnerPage: string := "https://github.com/dinonuwg"
  const Placeholder: string := "https://via.placeholder.com/200x200/ffffff/000000?text=Project"

  /** The list shown when the listing fails. */
  const FallbackProjects: seq<Project> := [
    Project("Project 1", "A cool project built with React Native.", OwnerPage, Placeholder),
    Project("Project 2", "Another awesome project.", OwnerPage, Placeholder),
    Project("Project 3", "Innovative solution.", OwnerPage, Placeholder)
  ]

  function LowerChar(c: char): char {
    if 'A' <= c <= 'Z' then (c as int - 'A' as int + 'a' as int) as char else c
  }

  /** Lower-casing of ASCII letters; every other character is kept. */
  function Lower(s: string): (r: string)
    ensures |r| == |s|
    ensures forall i :: 0 <= i < |s| ==> r[i] == LowerChar(s[i])
  {
    if |s| == 0 then "" else Lower(s[..|s| - 1]) + [LowerChar(s[|s| - 1])]
  }

  predicate AllNamed(repos: seq<Repo>) {
    forall i :: 0 <= i < |repos| ==> repos[i].name.Some?
  }

  predicate AllOwned(repos: seq<Repo>) {
    forall i :: 0 <= i < |repos| ==> repos[i].ownerLogin.Some?
  }

  /** The owner's profile-readme repository, whose name lower-cases to the owner's login. */
  predicate IsProfile(r: Repo)
    requires r.name.Some?
  {
    Lower(r.name.value) == Owner
  }

  /** The listing without the profile repository, in listing order. */
  function WithoutProfile(repos: seq<Repo>): (r: seq<Repo>)
    requires AllNamed(repos)
    ensures AllNamed(r)
    ensures |r| <= |repos|
    ensures forall j :: 0 <= j < |r| ==> r[j] in repos && !IsProfile(r[j])
  {
    if |repos| == 0 then []
    else
      var last := repos[|repos| - 1];
      WithoutProfile(repos[..|repos| - 1]) + (if IsProfile(last) then [] else [last])
  }

  /**
   * The listing positions of the non-profile repositories: strictly
   * increasing, and every non-profile position occurs.
   */
  function Kept(repos: seq<Repo>): (ks: seq<nat>)
    requires AllNamed(repos)
    ensures forall j :: 0 <= j < |ks| ==> ks[j] < |repos| && !IsProfile(repos[ks[j]])
    ensures forall j, k :: 0 <= j < k < |ks| ==> ks[j] < ks[k]
    ensures forall i :: 0 <= i < |repos| && !IsProfile(repos[i]) ==> i in ks
  {
    if |repos| == 0 then []
    else
      var n := |repos| - 1;
      var p := repos[..n];
      assert forall i :: 0 <= i < n ==> p[i] == repos[i];
      Kept(p) + (if IsProfile(repos[n]) then [] else [n])
  }

  /** The filtered listing is exactly the repositories at the kept positions, in order. */
  lemma {:induction false} WithoutProfileIsKept(repos: seq<Repo>)
    requires AllNamed(repos)
    ensures |WithoutProfile(repos)| == |Kept(repos)|
    ensures forall j :: 0 <= j < |Kept(repos)| ==> WithoutProfile(repos)[j] == repos[Kept(repos)[j]]
  {
    if |repos| > 0 {
      var n := |repos| - 1;
      var p := repos[..n];
      WithoutProfileIsKept(p);
      var w, k := WithoutProfile(p), Kept(p);
      var tail := if IsProfile(repos[n]) then [] else [repos[n]];
      var ktail := if IsProfile(repos[n]) then [] else [n];
      assert WithoutProfile(repos) == w + tail;
      assert Kept(repos) == k + ktail;
      forall j | 0 <= j < |k|
        ensures (w + tail)[j] == repos[(k + ktail)[j]]
      {
        assert p[k[j]] == repos[k[j]];
      }
    }
  }

  /** A description is shown when it is a non-empty string. */
  function DescriptionOf(r: Repo): (d: string)
    ensures d != ""
    ensures r.description.Some? && r.description.value != "" ==> d == r.description.value
    ensures r.description.None? || r.description.value == "" ==> d == NoDescription
  {
    if r.description.Some? && r.description.value != "" then r.description.value else NoDescription
  }

  /** One repository as a project card; the preview image is addressed by owner and name. */
  function ToProject(r: Repo): (p: Project)
    requires r.name.Some? && r.ownerLogin.Some?
    ensures p.name == r.name.value && p.url == r.htmlUrl
    ensures p.description != ""
    ensures p.image == PreviewBase + r.ownerLogin.value + "/" + r.name.value
  {
    Project(r.name.value, DescriptionOf(r), r.htmlUrl, PreviewBase + r.ownerLogin.value + "/" + r.name.value)
  }

  function ToProjects(rs: seq<Repo>): (ps: seq<Project>)
    requires AllOwned(rs) && AllNamed(rs)
    ensures |ps| == |rs|
    ensures forall j :: 0 <= j < |rs| ==> ps[j] == ToProject(rs[j])
  {
    if |rs| == 0 then [] else [ToProject(rs[0])] + ToProjects(rs[1..])
  }

  /** The first six non-profile repositories. */
  function Shown(repos: seq<Repo>): seq<Repo>
    requires AllNamed(repos)
  {
    var kept := WithoutProfile(repos);
    kept[..Min(MaxShown, |kept|)]
  }

  /**
   * The transform of a listing, or `None` where it throws: a repository
   * without a name fails the profile filter, a shown repository without an
   * owner fails the preview address.
   */
  function Transform(repos: seq<Repo>): (r: Option<seq<Project>>)
    ensures r.Some? <==> AllNamed(repos) && ShownOwned(repos)
    ensures r.Some? ==> |r.value| <= MaxShown
    ensures r.Some? ==> forall j :: 0 <= j < |r.value| ==> r.value[j].description != "" && Lower(r.value[j].name) != Owner
  {
    if !AllNamed(repos) then None
    else
      var shown := Shown(repos);
      ShownIsKeptPrefix(repos);
      if AllOwned(shown) then Some(ToProjects(shown)) else None
  }

  /** The projects the page shows once the listing `fetched` has resolved; `None` is a failed request. */
  function Load(fetched: Option<seq<Repo>>): (ps: seq<Project>)
    ensures |ps| <= MaxShown
    ensures forall j :: 0 <= j < |ps| ==> ps[j].description != "" && Lower(ps[j].name) != Owner
    ensures fetched.None? ==> ps == FallbackProjects
  {
    match fetched
    case None => FallbackProjects
    case Some(repos) =>
      match Transform(repos)
      case None => FallbackProjects
      case Some(ps) =>
        WithoutProfileIsKept(repos);
        ps
  }

  /** The first six kept repositories all have an owner. */
  predicate ShownOwned(repos: seq<Repo>)
    requires AllNamed(repos)
  {
    var ks := Kept(repos);
    forall j :: 0 <= j < Min(MaxShown, |ks|) ==> repos[ks[j]].ownerLogin.Some?
  }

  lemma ShownIsKeptPrefix(repos: seq<Repo>)
    requires AllNamed(repos)
    ensures |Shown(repos)| == Min(MaxShown, |Kept(repos)|)
    ensures forall j :: 0 <= j < |Shown(repos)| ==> Shown(repos)[j] == repos[Kept(repos)[j]]
    ensures AllOwned(Shown(repos)) <==> ShownOwned(repos)
  {
    WithoutProfileIsKept(repos);
  }

  /**
   * A listing the transform accepts shows the first six non-profile
   * repositories, in listing order, each mapped to its project card.
   */
  lemma LoadFollowsListing(repos: seq<Repo>)
    requires AllNamed(repos) && ShownOwned(repos)
    ensures var ps := Load(Some(repos));
      && |ps| == Min(MaxShown, |Kept(repos)|)
      && forall j :: 0 <= j < |ps| ==> ps[j] == ToProject(repos[Kept(repos)[j]])
  {
    ShownIsKeptPrefix(repos);
  }

  /** A failed request, a nameless repository or a shown repository without an owner gives exactly the fallback list. */
  lemma LoadFallsBack(fetched: Option<seq<Repo>>)
    requires fetched.None? || !AllNamed(fetched.value) || !ShownOwned(fetched.value)
    ensures Load(fetched) == FallbackProjects
  {
    if fetched.Some? && AllNamed(fetched.value) {
      ShownIsKeptPrefix(fetched.value);
    }
  }

  /** The profile match ignores letter case and nothing else. */
  lemma ProfileMatchIgnoresCase()
    ensures IsProfile(Repo(Some("DinoNUWG"), None, "", None))
    ensures !IsProfile(Repo(Some("dinonuwg.github.io"), None, "", None))
  {
    assert Lower("DinoNUWG") == Owner;
    assert |Lower("dinonuwg.github.io")| != |Owner|;
  }
}
