/** The cargo options of the coverage tool and the merge that folds a
    secondary (lower-precedence) configuration layer into a primary one. */
module Cargo {
  import opened Sequences

  /** Cargo subcommand to run. */
  datatype Mode = Test | Build

  datatype Option<T> = None | Some(value: T)

  /** First value that is set wins: the primary's when it has one, the
      secondary's otherwise (which may itself be unset). */
  function PickOptional<T>(mine: Option<T>, theirs: Option<T>): (r: Option<T>)
    ensures mine.Some? ==> r == mine
    ensures r.Some? <==> mine.Some? || theirs.Some?
    ensures r == mine || r == theirs
  {
    if mine.Some? then mine else theirs
  }

  /** Features of two layers joined with a single space; an unset side
      contributes nothing. */
  function JoinFeatures(mine: Option<string>, theirs: Option<string>): (r: Option<string>)
    ensures r.Some? <==> mine.Some? || theirs.Some?
  {
    match theirs
    case None => mine
    case Some(t) =>
      match mine
      case None => theirs
      case Some(m) => Some(m + " " + t)
  }

  /** The space-separated names of a features string, splitting at every
      single space (so two adjacent spaces give an empty name). */
  function Names(s: string): (r: seq<string>)
    ensures |r| >= 1
    ensures forall w :: w in r ==> ' ' !in w
  {
    if s == [] then [[]]
    else
      var rest := Names(s[1..]);
      if s[0] == ' ' then [[]] + rest
      else
        assert forall w :: w in rest[1..] ==> w in rest;
        [[s[0]] + rest[0]] + rest[1..]
  }

  /** The feature names a layer asks for: none when its features are unset. */
  function FeatureNames(f: Option<string>): (r: seq<string>)
  {
    match f
    case None => []
    case Some(s) => Names(s)
  }

  /** Names joined back with one space between neighbours. */
  function JoinSpaces(ns: seq<string>): string
    requires |ns| >= 1
  {
    if |ns| == 1 then ns[0] else ns[0] + " " + JoinSpaces(ns[1..])
  }

  /** Prefixing the first name with a character prefixes the joined string. */
  lemma {:induction false} JoinSpacesCons(c: char, ns: seq<string>)
    requires |ns| >= 1
    ensures JoinSpaces([[c] + ns[0]] + ns[1..]) == [c] + JoinSpaces(ns)
  {
    var ms := [[c] + ns[0]] + ns[1..];
    assert ms[1..] == ns[1..];
    if |ns| > 1 {
      assert ([c] + ns[0]) + " " + JoinSpaces(ns[1..]) == [c] + (ns[0] + " " + JoinSpaces(ns[1..]));
    }
  }

  /** Splitting loses nothing: joining the names with single spaces gives
      back the features string. */
  lemma {:induction false} NamesRoundTrip(s: string)
    ensures JoinSpaces(Names(s)) == s
    decreases |s|
  {
    if s != [] {
      var rest := Names(s[1..]);
      NamesRoundTrip(s[1..]);
      if s[0] == ' ' {
        assert ([[]] + rest)[1..] == rest;
      } else {
        JoinSpacesCons(s[0], rest);
      }
      assert [s[0]] + s[1..] == s;
    }
  }

  /** A string without a space is one name. */
  lemma {:induction false} NamesOfWord(w: string)
    requires ' ' !in w
    ensures Names(w) == [w]
    decreases |w|
  {
    if w != [] {
      NamesOfWord(w[1..]);
      assert [w[0]] + w[1..] == w;
    }
  }

  /** Joining space-free names and splitting again gives back the names. */
  lemma {:induction false} NamesOfJoinSpaces(ns: seq<string>)
    requires |ns| >= 1
    requires forall w :: w in ns ==> ' ' !in w
    ensures Names(JoinSpaces(ns)) == ns
    decreases |ns|
  {
    NamesOfWord(ns[0]);
    if |ns| > 1 {
      NamesOfJoinSpaces(ns[1..]);
      NamesOfJoin(ns[0], JoinSpaces(ns[1..]));
      assert [ns[0]] + ns[1..] == ns;
    }
  }

  /** Joining two strings with one space joins their name lists. */
  lemma {:induction false} NamesOfJoin(m: string, t: string)
    ensures Names(m + " " + t) == Names(m) + Names(t)
    decreases |m|
  {
    var j := m + " " + t;
    if m == [] {
      assert j[1..] == t;
    } else {
      assert j[1..] == m[1..] + " " + t;
      NamesOfJoin(m[1..], t);
    }
  }

  /** The merged features ask for the primary's names, then the secondary's,
      none lost and none invented. */
  lemma JoinFeaturesNames(mine: Option<string>, theirs: Option<string>)
    ensures FeatureNames(JoinFeatures(mine, theirs)) == FeatureNames(mine) + FeatureNames(theirs)
  {
    if mine.Some? && theirs.Some? {
      NamesOfJoin(mine.value, theirs.value);
    }
  }

  /** Joining features is associative, so folding several layers in pairs
      gives the same string however the pairs are grouped. */
  lemma JoinFeaturesAssociative(a: Option<string>, b: Option<string>, c: Option<string>)
    ensures JoinFeatures(JoinFeatures(a, b), c) == JoinFeatures(a, JoinFeatures(b, c))
  {
    if a.Some? && b.Some? && c.Some? {
      assert a.value + " " + b.value + " " + c.value == a.value + " " + (b.value + " " + c.value);
    }
  }

  /** Picking the first set value is associative. */
  lemma PickOptionalAssociative<T>(a: Option<T>, b: Option<T>, c: Option<T>)
    ensures PickOptional(PickOptional(a, b), c) == PickOptional(a, PickOptional(b, c))
  {
  }

  /** The additions `filter(|p| !mine.contains(p)).collect()` computes:
      the elements of `theirs` that are not in `mine`, in their order. */
  method CollectMissing(mine: seq<string>, theirs: seq<string>) returns (additions: seq<string>)
    ensures additions == Without(theirs, mine)
  {
    additions := [];
    var i := 0;
    while i < |theirs|
      invariant 0 <= i <= |theirs|
      invariant additions == Without(theirs[..i], mine)
    {
      assert theirs[..i + 1][..i] == theirs[..i];
      if theirs[i] !in mine {
        additions := additions + [theirs[i]];
      }
      i := i + 1;
    }
    assert theirs[..i] == theirs;
  }

  /** `packages.retain(|p| !exclude.contains(p))`: the packages kept, in order,
      and (ghost) the packages reported as removed, in order. */
  method RetainNotExcluded(packages: seq<string>, exclude: seq<string>)
    returns (kept: seq<string>, ghost removed: seq<string>)
    ensures kept == Without(packages, exclude)
    ensures removed == Within(packages, exclude)
  {
    kept, removed := [], [];
    var i := 0;
    while i < |packages|
      invariant 0 <= i <= |packages|
      invariant kept == Without(packages[..i], exclude)
      invariant removed == Within(packages[..i], exclude)
    {
      assert packages[..i + 1][..i] == packages[..i];
      var keep := packages[i] !in exclude;
      if keep {
        kept := kept + [packages[i]];
      } else {
        removed := removed + [packages[i]];
      }
      i := i + 1;
    }
    assert packages[..i] == packages;
  }

  /** The seven on/off options of a layer; a layer holds the set of those
      that are on. */
  datatype Flag = Locked | Frozen | AllFeatures | NoDefaultFeatures | All | Release | Offline

  /** Two layers' flags combined: a flag is on when either layer turns it on. */
  function UnionFlags(mine: set<Flag>, theirs: set<Flag>): (r: set<Flag>)
    ensures forall f :: f in r <==> f in mine || f in theirs
  {
    mine + theirs
  }

  /** One layer of cargo options: from the command line, or from a
      configuration file. */
  class CargoConfig {
    /** The boolean options that are on: `locked` (don't update `Cargo.lock`),
        `frozen` (nor any caches), `all-features`, `no-default-features`,
        `all` (alias `workspace`), `release` and `offline`. */
    var flags: set<Flag>
    var profile: Option<string>
    /** Number of build jobs. */
    var jobs: Option<nat>
    /** Space-separated feature names, e.g. "feature1 feature2". */
    var features: Option<string>
    var packages: seq<string>
    var exclude: seq<string>
    /** Target triple. */
    var target: Option<string>
    /** Unstable cargo features (`-Z`). */
    var unstableFeatures: seq<string>
    /** Cargo subcommand to run. */
    var command: Mode
    /** Arguments forwarded to the test executables. */
    var varargs: seq<string>

    /** No selected package is also excluded. */
    ghost predicate PackagesNotExcluded()
      reads this
    {
      forall p :: p in packages ==> p !in exclude
    }

    /** The default layer: every flag off, every option unset, every list
        empty, and the `test` subcommand. */
    constructor ()
      ensures flags == {}
      ensures profile == None && jobs == None && features == None && target == None
      ensures packages == [] && exclude == [] && unstableFeatures == [] && varargs == []
      ensures command == Test
      ensures PackagesNotExcluded()
    {
      flags := {};
      command := Test;
      features := None;
      unstableFeatures := [];
      packages := [];
      exclude := [];
      varargs := [];
      target := None;
      profile := None;
      jobs := None;
    }

    /** The flags are united; target, jobs and
        profile keep this layer's value when it is set and take the other's
        otherwise. */
    method MergeOptions(other: CargoConfig)
      requires other != this
      modifies this`flags, this`target, this`jobs, this`profile
      ensures flags == UnionFlags(old(flags), other.flags)
      ensures target == PickOptional(old(target), other.target)
      ensures jobs == PickOptional(old(jobs), other.jobs)
      ensures profile == PickOptional(old(profile), other.profile)
    {
      flags := flags + other.flags;
      target := PickOptional(target, other.target);
      if jobs.None? {
        jobs := other.jobs;
      }

      if profile.None? && other.profile.Some? {
        profile := other.profile;
      }
    }

    /** The other layer's features are appended after one space. */
    method MergeFeatures(other: CargoConfig)
      requires other != this
      modifies this`features
      ensures other.features.None? ==> features == old(features)
      ensures old(features).None? ==> features == other.features
      ensures old(features).Some? && other.features.Some? ==>
                features == Some(old(features).value + " " + other.features.value)
      ensures features == JoinFeatures(old(features), other.features)
    {
      if other.features.Some? {
        if features.None? {
          features := other.features;
        } else {
          features := Some(features.value + " " + other.features.value);
        }
      }
    }

    /** Each list is extended with the other layer's entries it
        did not hold before. */
    method ExtendLists(other: CargoConfig)
      requires other != this
      modifies this`packages, this`exclude, this`varargs, this`unstableFeatures
      ensures packages == Extended(old(packages), other.packages)
      ensures exclude == Extended(old(exclude), other.exclude)
      ensures varargs == Extended(old(varargs), other.varargs)
      ensures unstableFeatures == Extended(old(unstableFeatures), other.unstableFeatures)
    {
      var additionalPackages := CollectMissing(packages, other.packages);
      packages := packages + additionalPackages;

      var additionalExcludes := CollectMissing(exclude, other.exclude);
      exclude := exclude + additionalExcludes;

      var additionalVarargs := CollectMissing(varargs, other.varargs);
      varargs := varargs + additionalVarargs;

      var additionalZOpts := CollectMissing(unstableFeatures, other.unstableFeatures);
      unstableFeatures := unstableFeatures + additionalZOpts;
    }

    /** Drops every package that is excluded; `removed` is the
        ghost record of the packages reported as dropped, in order. */
    method PurgeExcludedPackages() returns (ghost removed: seq<string>)
      modifies this`packages
      ensures packages == Without(old(packages), exclude)
      ensures removed == Within(old(packages), exclude)
      ensures PackagesNotExcluded()
    {
      var kept;
      kept, removed := RetainNotExcluded(packages, exclude);
      packages := kept;
    }

    /** The scalar half of the merge: flags, options and features. */
    method MergeScalars(other: CargoConfig)
      requires other != this
      modifies this`flags, this`target, this`jobs, this`profile, this`features
      ensures flags == UnionFlags(old(flags), other.flags)
      ensures target == PickOptional(old(target), other.target)
      ensures jobs == PickOptional(old(jobs), other.jobs)
      ensures profile == PickOptional(old(profile), other.profile)
      ensures features == JoinFeatures(old(features), other.features)
    {
      MergeOptions(other);
      MergeFeatures(other);
    }

    /** The list half of the merge: extend every list, then purge the
        packages. */
    method MergeLists(other: CargoConfig) returns (ghost removed: seq<string>)
      requires other != this
      modifies this`packages, this`exclude, this`varargs, this`unstableFeatures
      ensures exclude == Extended(old(exclude), other.exclude)
      ensures varargs == Extended(old(varargs), other.varargs)
      ensures unstableFeatures == Extended(old(unstableFeatures), other.unstableFeatures)
      ensures packages == Without(Extended(old(packages), other.packages), exclude)
      ensures removed == Within(Extended(old(packages), other.packages), exclude)
      ensures PackagesNotExcluded()
    {
      ExtendLists(other);
      removed := PurgeExcludedPackages();
    }

    /** Folds the secondary layer `other` into this one, which takes
        precedence. `removed` is the ghost record of the packages reported
        as dropped because they are excluded. */
    method Merge(other: CargoConfig) returns (ghost removed: seq<string>)
      requires other != this
      modifies this
      // flags: on when either layer turns them on
      ensures flags == UnionFlags(old(flags), other.flags)
      // options: the first that is set wins
      ensures target == PickOptional(old(target), other.target)
      ensures jobs == PickOptional(old(jobs), other.jobs)
      ensures profile == PickOptional(old(profile), other.profile)
      // features: joined with one space
      ensures features == JoinFeatures(old(features), other.features)
      // lists: extended with what they did not hold before
      ensures exclude == Extended(old(exclude), other.exclude)
      ensures varargs == Extended(old(varargs), other.varargs)
      ensures unstableFeatures == Extended(old(unstableFeatures), other.unstableFeatures)
      // packages: extended, then purged of everything now excluded
      ensures packages == Without(Extended(old(packages), other.packages), exclude)
      ensures removed == Within(Extended(old(packages), other.packages), exclude)
      ensures PackagesNotExcluded()
      ensures command == old(command)
    {
      MergeScalars(other);
      removed := MergeLists(other);
    }
  }

  /** Merging the default layer changes nothing, as long as no package is
      already excluded (otherwise the purge would still drop it). */
  method MergeDefaultIsNoOp(c: CargoConfig)
    requires c.PackagesNotExcluded()
    modifies c
    ensures c.flags == old(c.flags)
    ensures c.profile == old(c.profile) && c.jobs == old(c.jobs)
    ensures c.features == old(c.features) && c.target == old(c.target)
    ensures c.packages == old(c.packages) && c.exclude == old(c.exclude)
    ensures c.unstableFeatures == old(c.unstableFeatures) && c.varargs == old(c.varargs)
    ensures c.command == old(c.command)
  {
    ghost var packages, exclude := c.packages, c.exclude;
    var d := new CargoConfig();
    ghost var removed := c.Merge(d);
    assert Extended(packages, []) == packages;
    assert c.exclude == exclude;
    WithoutDisjoint(packages, exclude);
  }

  /** Merging a copy of a layer into it changes nothing except the
      features, which are repeated after a space, as long as no package is
      already excluded. */
  method MergeCloneIsIdempotent(c: CargoConfig, d: CargoConfig)
    requires c != d && c.PackagesNotExcluded()
    requires d.flags == c.flags && d.profile == c.profile && d.jobs == c.jobs
    requires d.features == c.features && d.target == c.target
    requires d.packages == c.packages && d.exclude == c.exclude
    requires d.unstableFeatures == c.unstableFeatures && d.varargs == c.varargs
    modifies c
    ensures c.flags == old(c.flags)
    ensures c.profile == old(c.profile) && c.jobs == old(c.jobs) && c.target == old(c.target)
    ensures c.features == JoinFeatures(old(c.features), old(c.features))
    ensures c.packages == old(c.packages) && c.exclude == old(c.exclude)
    ensures c.unstableFeatures == old(c.unstableFeatures) && c.varargs == old(c.varargs)
    ensures c.command == old(c.command)
  {
    ghost var packages, exclude := c.packages, c.exclude;
    ExtendedBySelf(c.packages);
    ExtendedBySelf(c.exclude);
    ExtendedBySelf(c.unstableFeatures);
    ExtendedBySelf(c.varargs);
    ghost var removed := c.Merge(d);
    WithoutDisjoint(packages, exclude);
  }

  /** Accumulation: the primary's order, then the secondary's new names. */
  method MergeAccumulatesExample()
  {
    var a := new CargoConfig();
    var b := new CargoConfig();
    a.packages := ["y", "z"];
    b.packages := ["x", "y"];
    ghost var removed := a.Merge(b);
    assert Without(["x", "y"], ["y", "z"]) == ["x"] by {
      assert ["x", "y"][..1] == ["x"];
      assert ["x"][..0] == [];
    }
    assert a.packages == ["y", "z", "x"] by {
      WithoutDisjoint(["y", "z", "x"], []);
    }
  }

  /** Exclusion purge, with the dropped package reported. */
  method MergePurgesExample()
  {
    var a := new CargoConfig();
    var b := new CargoConfig();
    a.packages := ["y", "z"];
    b.exclude := ["z"];
    ghost var removed := a.Merge(b);
    assert ["y", "z"][..1] == ["y"];
    assert ["y"][..0] == [];
    assert a.packages == ["y"];
    assert removed == ["z"];
  }

  /** Features joined with a space; the first target wins; flags united;
      an unset target takes the secondary's. */
  method MergeScalarsExample()
  {
    var a := new CargoConfig();
    var b := new CargoConfig();
    a.features, b.features := Some("f1"), Some("f2");
    a.target, b.target := Some("x86_64"), Some("arm64");
    a.flags, b.flags := {Release}, {Offline};
    ghost var removed := a.Merge(b);
    assert "f1" + " " + "f2" == "f1 f2";
    assert a.features == Some("f1 f2");
    assert a.target == Some("x86_64");
    assert a.flags == {Release, Offline};

    a := new CargoConfig();
    removed := a.Merge(b);
    assert a.target == Some("arm64");
  }
}
