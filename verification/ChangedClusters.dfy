/** Incremental validation: which clusters a set of changed files makes worth validating again. */
module ChangedClusters {
  import opened Common

  /** A repository path as its components. */
  type Path = seq<string>

  datatype Target = Target(site: string, mce: Option<string>, cluster: Option<string>)

  /** A hosted-cluster file as the discovery walk yields it. */
  datatype Cluster = Cluster(site: string, mce: string, file: string)

  /* ---- File names, as pathlib splits them ---- */

  function LastDot(name: string): int
    ensures -1 <= LastDot(name) < |name|
    ensures LastDot(name) >= 0 ==> name[LastDot(name)] == '.'
  {
    if name == "" then -1
    else if name[|name| - 1] == '.' then |name| - 1
    else LastDot(name[..|name| - 1])
  }

  function Suffix(name: string): string {
    var i := LastDot(name);
    if 0 < i < |name| - 1 then name[i..] else ""
  }

  function Stem(name: string): string {
    var i := LastDot(name);
    if 0 < i < |name| - 1 then name[..i] else name
  }

  predicate IsYaml(name: string) {
    Suffix(name) == ".yaml" || Suffix(name) == ".yml"
  }

  lemma {:induction false} LastDotIsLast(name: string, i: nat)
    requires i < |name| && name[i] == '.' && forall k :: i < k < |name| ==> name[k] != '.'
    ensures LastDot(name) == i
    decreases |name|
  {
    if i < |name| - 1 {
      LastDotIsLast(name[..|name| - 1], i);
    }
  }

  lemma ExtensionSplits(stem: string, ext: string)
    requires stem != "" && ext != "" && '.' !in ext
    ensures Stem(stem + "." + ext) == stem && Suffix(stem + "." + ext) == "." + ext
  {
    var name := stem + "." + ext;
    LastDotIsLast(name, |stem|);
    assert name[..|stem|] == stem && name[|stem|..] == "." + ext;
  }

  /** The names that count as YAML files are the stems with either extension. */
  lemma YamlNames(name: string, stem: string)
    requires stem != ""
    ensures IsYaml(name) && Stem(name) == stem <==> name == stem + ".yaml" || name == stem + ".yml"
  {
    hide Stem, Suffix;
    StemAndSuffix(name);
    YamlExtensions(stem);
  }

  lemma StemAndSuffix(name: string)
    ensures name == Stem(name) + Suffix(name)
  {
  }

  lemma YamlExtensions(stem: string)
    requires stem != ""
    ensures Stem(stem + ".yaml") == stem && Suffix(stem + ".yaml") == ".yaml"
    ensures Stem(stem + ".yml") == stem && Suffix(stem + ".yml") == ".yml"
  {
    hide Stem, Suffix;
    ExtensionSplits(stem, "yaml");
    ExtensionSplits(stem, "yml");
    assert stem + "." + "yaml" == stem + ".yaml" && "." + "yaml" == ".yaml";
    assert stem + "." + "yml" == stem + ".yml" && "." + "yml" == ".yml";
  }

  /* ---- The full validator's view ---- */

  predicate Discoverable(c: Cluster) {
    c.site != "" && c.mce != "" && c.site[0] != '.' && c.mce[0] != '.' && IsYaml(c.file)
  }

  /** The files merged for a cluster, the global one first. */
  function Chain(sites: Path, c: Cluster): seq<Path> {
    [sites + ["configValues.yaml"],
     sites + [c.site, "values.yaml"],
     sites + [c.site, "mces", c.mce, "values.yaml"],
     sites + [c.site, "mces", c.mce, "hostedClusters", c.file]]
  }

  /** A filter that is None or empty lets everything through. */
  predicate Lets(filter: Option<string>, name: string) {
    filter.None? || filter.value == "" || filter.value == name
  }

  /** The clusters a run with the target's filters walks over. */
  predicate Selects(t: Target, c: Cluster) {
    Lets(Some(t.site), c.site) && Lets(t.mce, c.mce) && (Lets(t.cluster, c.file) || Lets(t.cluster, Stem(c.file)))
  }

  /** An empty filter is none, and a filter by cluster takes a file name or the name without its
      extension. */
  lemma SelectedFiles(t: Target, c: Cluster)
    requires Discoverable(c)
    ensures Selects(t, c) <==>
              && (t.site == "" || c.site == t.site)
              && (t.mce.None? || t.mce.value == "" || c.mce == t.mce.value)
              && (t.cluster.None? || t.cluster.value == "" || c.file == t.cluster.value
                  || c.file == t.cluster.value + ".yaml" || c.file == t.cluster.value + ".yml")
  {
    if t.cluster.Some? && t.cluster.value != "" {
      YamlNames(c.file, t.cluster.value);
    }
  }

  /* ---- From changed files to targets ---- */

  predicate Global(sitesDir: string, f: Path) {
    |f| == 2 && f[0] == sitesDir && f[1] == "configValues.yaml"
  }

  /** The target one changed file stands for, if any. */
  function TargetOf(sitesDir: string, f: Path): Option<Target> {
    if |f| < 3 || f[0] != sitesDir then None
    else if |f| == 3 && f[2] == "values.yaml" then Some(Target(f[1], None, None))
    else if |f| < 5 || f[2] != "mces" then None
    else if |f| == 5 && f[4] == "values.yaml" then Some(Target(f[1], Some(f[3]), None))
    else if |f| == 6 && f[4] == "hostedClusters" && IsYaml(f[5]) then Some(Target(f[1], Some(f[3]), Some(Stem(f[5]))))
    else None
  }

  function AllTargets(sitesDir: string, changed: seq<Path>): set<Target> {
    set f | f in changed && TargetOf(sitesDir, f).Some? :: TargetOf(sitesDir, f).value
  }

  /** A target that a broader one in the same set makes superfluous. */
  predicate Superfluous(t: Target, targets: set<Target>) {
    || (t.mce.Some? && Target(t.site, None, None) in targets)
    || (t.cluster.Some? && Target(t.site, t.mce, None) in targets)
  }

  function Normalized(targets: set<Target>): set<Target> {
    set t | t in targets && !Superfluous(t, targets)
  }

  /* ---- The order of the result ---- */

  /** Python's order of strings, by code points. */
  predicate StringLeq(a: string, b: string) {
    a == "" || (b != "" && (a[0] < b[0] || (a[0] == b[0] && StringLeq(a[1..], b[1..]))))
  }

  lemma {:induction false} StringsCompare(a: string, b: string)
    ensures StringLeq(a, b) || StringLeq(b, a)
    ensures StringLeq(a, b) && StringLeq(b, a) ==> a == b
  {
    if a != "" && b != "" {
      StringsCompare(a[1..], b[1..]);
      assert a == [a[0]] + a[1..] && b == [b[0]] + b[1..];
    }
  }

  /** a and b first differ at k, where a is smaller. */
  predicate SmallerAt(a: string, b: string, k: nat) {
    k < |a| && k < |b| && a[k] < b[k] && forall i :: 0 <= i < k ==> a[i] == b[i]
  }

  lemma {:induction false} SmallerIsLeq(a: string, b: string, k: nat)
    requires SmallerAt(a, b, k)
    ensures StringLeq(a, b)
  {
    if k > 0 {
      SmallerIsLeq(a[1..], b[1..], k - 1);
    }
  }

  lemma {:induction false} PrefixIsLeq(a: string, b: string)
    requires a <= b
    ensures StringLeq(a, b)
  {
    if a != "" {
      PrefixIsLeq(a[1..], b[1..]);
    }
  }

  lemma {:induction false} LeqIsPrefixOrSmaller(a: string, b: string) returns (k: nat)
    requires StringLeq(a, b)
    ensures a <= b || SmallerAt(a, b, k)
  {
    k := 0;
    if a != "" && a[0] == b[0] {
      k := LeqIsPrefixOrSmaller(a[1..], b[1..]);
      k := k + 1;
      assert a == [a[0]] + a[1..] && b == [b[0]] + b[1..];
    }
  }

  /** a comes no later than b: it is a beginning of b, or smaller where they first differ. */
  lemma StringOrder(a: string, b: string)
    ensures StringLeq(a, b) <==> a <= b || exists k: nat :: SmallerAt(a, b, k)
  {
    if StringLeq(a, b) {
      var _ := LeqIsPrefixOrSmaller(a, b);
    }
    if a <= b {
      PrefixIsLeq(a, b);
    }
    if k: nat :| SmallerAt(a, b, k) {
      SmallerIsLeq(a, b, k);
    }
  }

  lemma {:induction false} StringsChain(a: string, b: string, c: string)
    requires StringLeq(a, b) && StringLeq(b, c)
    ensures StringLeq(a, c)
  {
    if a != "" {
      if a[0] == b[0] && b[0] == c[0] {
        StringsChain(a[1..], b[1..], c[1..]);
      }
    }
  }

  /** Lexicographic order on lists of strings. */
  predicate KeysLeq(a: seq<string>, b: seq<string>)
    requires |a| == |b|
  {
    a == [] || (a[0] != b[0] && StringLeq(a[0], b[0])) || (a[0] == b[0] && KeysLeq(a[1..], b[1..]))
  }

  lemma {:induction false} KeysCompare(a: seq<string>, b: seq<string>)
    requires |a| == |b|
    ensures KeysLeq(a, b) || KeysLeq(b, a)
  {
    if a != [] {
      StringsCompare(a[0], b[0]);
      KeysCompare(a[1..], b[1..]);
    }
  }

  lemma {:induction false} KeysChain(a: seq<string>, b: seq<string>, c: seq<string>)
    requires |a| == |b| == |c| && KeysLeq(a, b) && KeysLeq(b, c)
    ensures KeysLeq(a, c)
  {
    if a != [] {
      if a[0] == b[0] && b[0] == c[0] {
        KeysChain(a[1..], b[1..], c[1..]);
      } else if a[0] != b[0] && b[0] != c[0] {
        StringsChain(a[0], b[0], c[0]);
        StringsCompare(a[0], b[0]);
      }
    }
  }

  /** The sort key: None counts as the empty string. */
  function Key(t: Target): seq<string> {
    [t.site, if t.mce.Some? then t.mce.value else "", if t.cluster.Some? then t.cluster.value else ""]
  }

  ghost predicate InOrder(ts: seq<Target>) {
    forall i, j :: 0 <= i < j < |ts| ==> KeysLeq(Key(ts[i]), Key(ts[j])) && ts[i] != ts[j]
  }

  /** Targets come by site, within a site by MCE, and within that by cluster, wider ones first. */
  lemma OrderOfTargets(ts: seq<Target>, i: nat, j: nat)
    requires InOrder(ts) && i < j < |ts|
    ensures StringLeq(ts[i].site, ts[j].site)
    ensures ts[i].site == ts[j].site && ts[j].mce.Some? && ts[i].mce.Some? ==>
              StringLeq(ts[i].mce.value, ts[j].mce.value)
    ensures ts[i].site == ts[j].site && ts[j].mce.None? ==> ts[i].mce.None? || ts[i].mce.value == ""
    ensures ts[i].site == ts[j].site && ts[i].mce == ts[j].mce && ts[i].cluster.Some? && ts[j].cluster.Some? ==>
              StringLeq(ts[i].cluster.value, ts[j].cluster.value)
    ensures ts[i].site == ts[j].site && ts[i].mce == ts[j].mce && ts[j].cluster.None? ==>
              ts[i].cluster.None? || ts[i].cluster.value == ""
  {
    var a, b := Key(ts[i]), Key(ts[j]);
    assert KeysLeq(a, b);
    StringsCompare(a[0], b[0]);
    assert a[0] == b[0] ==> KeysLeq(a[1..], b[1..]);
    assert a[1..][0] == a[1] && b[1..][0] == b[1];
    assert a[0] == b[0] && a[1] == b[1] ==> KeysLeq(a[1..][1..], b[1..][1..]);
    assert a[1..][1..][0] == a[2] && b[1..][1..][0] == b[2];
    StringsCompare(a[1], a[1]);
    StringsCompare(a[2], a[2]);
    StringsCompare(a[0], a[0]);
  }

  method InsertInOrder(ts: seq<Target>, t: Target) returns (out: seq<Target>)
    requires InOrder(ts) && t !in ts
    ensures InOrder(out) && forall x :: x in out <==> x in ts || x == t
  {
    var i := 0;
    while i < |ts| && KeysLeq(Key(ts[i]), Key(t))
      invariant i <= |ts|
      invariant forall k :: 0 <= k < i ==> KeysLeq(Key(ts[k]), Key(t))
    {
      i := i + 1;
    }
    out := ts[..i] + [t] + ts[i..];
    assert forall x :: x in ts <==> x in ts[..i] || x in ts[i..];
    forall k | i <= k < |ts|
      ensures KeysLeq(Key(t), Key(ts[k]))
    {
      KeysCompare(Key(ts[i]), Key(t));
      if k > i {
        KeysChain(Key(t), Key(ts[i]), Key(ts[k]));
      }
    }
  }

  method SortTargets(targets: set<Target>) returns (ts: seq<Target>)
    ensures InOrder(ts) && forall t :: t in ts <==> t in targets
  {
    ts := [];
    var rest := targets;
    while rest != {}
      invariant rest <= targets && InOrder(ts)
      invariant forall t :: t in ts <==> t in targets - rest
    {
      var t :| t in rest;
      rest := rest - {t};
      ts := InsertInOrder(ts, t);
    }
  }

  /** `_resolve_targets`; None asks for a full scan. */
  method ResolveTargets(changed: seq<Path>, sitesDir: string) returns (r: Option<seq<Target>>)
    ensures r.None? <==> exists f :: f in changed && Global(sitesDir, f)
    ensures r.Some? ==>
              InOrder(r.value) && forall t :: t in r.value <==> t in Normalized(AllTargets(sitesDir, changed))
  {
    var targets: set<Target> := {};
    for i := 0 to |changed|
      invariant targets == AllTargets(sitesDir, changed[..i])
      invariant forall k :: 0 <= k < i ==> !Global(sitesDir, changed[k])
    {
      var parts := changed[i];
      OneMoreFile(sitesDir, changed, i);
      if parts == [] || parts[0] != sitesDir {
        continue;
      }
      if |parts| == 2 && parts[1] == "configValues.yaml" {
        assert Global(sitesDir, changed[i]);
        return None;
      }
      if |parts| < 3 {
        continue;
      }
      var site := parts[1];
      if |parts| == 3 && parts[2] == "values.yaml" {
        targets := targets + {Target(site, None, None)};
        continue;
      }
      if |parts| < 5 || parts[2] != "mces" {
        continue;
      }
      var mce := parts[3];
      if |parts| == 5 && parts[4] == "values.yaml" {
        targets := targets + {Target(site, Some(mce), None)};
        continue;
      }
      if |parts| == 6 && parts[4] == "hostedClusters" {
        if IsYaml(parts[5]) {
          targets := targets + {Target(site, Some(mce), Some(Stem(parts[5])))};
        }
      }
    }
    assert changed[..|changed|] == changed;
    var normalized := Normalize(targets);
    var sorted := SortTargets(normalized);
    return Some(sorted);
  }

  lemma OneMoreFile(sitesDir: string, changed: seq<Path>, i: nat)
    requires i < |changed|
    ensures AllTargets(sitesDir, changed[..i + 1]) ==
              AllTargets(sitesDir, changed[..i]) +
              (if TargetOf(sitesDir, changed[i]).Some? then {TargetOf(sitesDir, changed[i]).value} else {})
  {
    assert changed[..i + 1] == changed[..i] + [changed[i]];
  }

  method Normalize(targets: set<Target>) returns (normalized: set<Target>)
    ensures normalized == Normalized(targets)
  {
    normalized := {};
    var rest := targets;
    while rest != {}
      invariant rest <= targets
      invariant normalized == set t | t in targets - rest && !Superfluous(t, targets)
    {
      var t :| t in rest;
      rest := rest - {t};
      var siteWide, mceWide := Target(t.site, None, None), Target(t.site, t.mce, None);
      if t.mce.Some? && siteWide in targets {
        continue;
      }
      if t.cluster.Some? && mceWide in targets {
        continue;
      }
      normalized := normalized + {t};
    }
  }

  /* ---- Coverage ---- */

  predicate Covers(a: Target, b: Target) {
    a.site == b.site && (a.mce.None? || (a.mce == b.mce && (a.cluster.None? || a.cluster == b.cluster)))
  }

  lemma CoveringSelectsMore(a: Target, b: Target, c: Cluster)
    requires Covers(a, b) && (a.mce.None? ==> a.cluster.None?) && Selects(b, c)
    ensures Selects(a, c)
  {
  }

  /** Targets come in three shapes. */
  ghost predicate Shaped(targets: set<Target>) {
    forall t :: t in targets && t.mce.None? ==> t.cluster.None?
  }

  lemma TargetsAreShaped(sitesDir: string, changed: seq<Path>)
    ensures Shaped(AllTargets(sitesDir, changed))
  {
  }

  /** Dropping superfluous targets keeps something that covers each of them. */
  lemma NothingIsLost(targets: set<Target>, t: Target) returns (n: Target)
    requires Shaped(targets) && t in targets
    ensures n in Normalized(targets) && Covers(n, t)
  {
    var siteWide, mceWide := Target(t.site, None, None), Target(t.site, t.mce, None);
    if t.mce.Some? && siteWide in targets {
      n := siteWide;
    } else if t.cluster.Some? && mceWide in targets {
      n := mceWide;
    } else {
      n := t;
    }
  }

  /** No returned target covers another. */
  lemma NothingIsRepeated(targets: set<Target>, m: Target, n: Target)
    requires Shaped(targets) && m in Normalized(targets) && n in Normalized(targets) && Covers(m, n)
    ensures m == n
  {
    assert m.mce.None? ==> m == Target(n.site, None, None);
    assert m.mce.Some? && m.cluster.None? ==> m == Target(n.site, n.mce, None);
    assert n.mce.None? ==> n.cluster.None?;
  }

  lemma YamlHasStem(c: Cluster)
    requires IsYaml(c.file)
    ensures Lets(Some(Stem(c.file)), Stem(c.file))
  {
  }

  lemma ChangedChainHasTarget(sitesDir: string, c: Cluster, f: Path)
    requires Discoverable(c) && f in Chain([sitesDir], c) && !Global(sitesDir, f)
    ensures TargetOf(sitesDir, f).Some? && Selects(TargetOf(sitesDir, f).value, c)
  {
    YamlHasStem(c);
  }

  /** Incremental validation is complete when the sites directory is a single component: a cluster
      with a changed file anywhere in its chain is selected, unless everything is scanned. */
  lemma ChangedClustersAreSelected(sitesDir: string, changed: seq<Path>, c: Cluster, f: Path)
    requires Discoverable(c) && f in changed && f in Chain([sitesDir], c)
    requires !exists g :: g in changed && Global(sitesDir, g)
    ensures exists t :: t in Normalized(AllTargets(sitesDir, changed)) && Selects(t, c)
  {
    ChangedChainHasTarget(sitesDir, c, f);
    var t := TargetOf(sitesDir, f).value;
    assert t in AllTargets(sitesDir, changed);
    TargetsAreShaped(sitesDir, changed);
    var n := NothingIsLost(AllTargets(sitesDir, changed), t);
    CoveringSelectsMore(n, t, c);
  }

  /** The file is in the cluster's chain, up to the extension of a cluster file. */
  predicate InChain(sitesDir: string, f: Path, c: Cluster)
    requires f != []
  {
    || f in Chain([sitesDir], c)
    || (f[..|f| - 1] == [sitesDir, c.site, "mces", c.mce, "hostedClusters"]
        && Stem(f[|f| - 1]) in {c.file, Stem(c.file)})
  }

  lemma SelectedMeansInChain(sitesDir: string, f: Path, c: Cluster)
    requires TargetOf(sitesDir, f).Some? && Selects(TargetOf(sitesDir, f).value, c)
    requires forall k :: 0 <= k < |f| ==> f[k] != ""
    ensures InChain(sitesDir, f, c)
  {
    if |f| == 3 {
      assert f == [sitesDir] + [c.site, "values.yaml"];
    } else if |f| == 5 {
      assert f == [sitesDir] + [c.site, "mces", c.mce, "values.yaml"];
    } else {
      StemIsNotEmpty(f[5]);
      assert f[..5] == [sitesDir, c.site, "mces", c.mce, "hostedClusters"];
    }
  }

  lemma StemIsNotEmpty(name: string)
    requires name != ""
    ensures Stem(name) != ""
  {
  }

  /** And precise: a cluster that a returned target selects has a changed file in its chain. */
  lemma SelectedClustersChanged(sitesDir: string, changed: seq<Path>, t: Target, c: Cluster) returns (f: Path)
    requires t in Normalized(AllTargets(sitesDir, changed)) && Selects(t, c)
    requires forall f, k :: f in changed && 0 <= k < |f| ==> f[k] != ""
    ensures f in changed && f != [] && TargetOf(sitesDir, f) == Some(t) && InChain(sitesDir, f, c)
  {
    f :| f in changed && TargetOf(sitesDir, f) == Some(t);
    SelectedMeansInChain(sitesDir, f, c);
  }

  /* ---- A nested sites directory ---- */

  /** How the option is written: components joined by slashes. */
  function Joined(sites: Path): string {
    if sites == [] then "" else if |sites| == 1 then sites[0] else sites[0] + "/" + Joined(sites[1..])
  }

  predicate IsName(name: string) {
    name != "" && '/' !in name
  }

  lemma {:induction false} JoinedHasSlash(sites: Path)
    requires |sites| >= 2
    ensures '/' in Joined(sites)
  {
    var s := Joined(sites);
    assert s == sites[0] + ("/" + Joined(sites[1..]));
    assert s[|sites[0]|] == '/';
  }

  /** When the sites directory is nested, changes are never seen: whatever changed below it, nothing
      is selected and no full scan is asked for. */
  lemma NestedSitesDirSelectsNothing(sites: Path, changed: seq<Path>)
    requires |sites| >= 2
    requires forall f, k :: f in changed && 0 <= k < |f| ==> IsName(f[k])
    ensures AllTargets(Joined(sites), changed) == {}
    ensures !exists f :: f in changed && Global(Joined(sites), f)
  {
    JoinedHasSlash(sites);
    forall f | f in changed && |f| > 0
      ensures f[0] != Joined(sites)
    {
      assert IsName(f[0]);
    }
  }
}
