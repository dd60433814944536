/** Loading a directory of profiles, adding one and deleting one. */
module Profiles {
  import opened Wrappers
  import opened Profile

  /** What a file in the directory holds. */
  datatype File = Unreadable | Contents(toml: Toml)

  /** A directory that is missing or cannot be listed, or the files in it by name. */
  datatype Directory = Absent | Listing(files: map<string, File>)

  datatype Reason =
    | NoDirectory
    | CannotRead
    | Outdated(version: nat)
    | Rejected(error: ProfileError)
    | SourceIdTaken(id: string)

  datatype Unusable = Unusable(path: string, reason: Reason)

  datatype Loaded = Loaded(profiles: seq<Profile>, unusable: seq<Unusable>)

  type Zones = string -> bool

  /** A name with the extension `toml`; a leading dot starts no extension. */
  predicate IsToml(name: string) { |name| > 5 && name[|name| - 5..] == ".toml" }

  function FileName(sourceId: string): string { sourceId + ".toml" }

  /** The order of paths: by their bytes, which for UTF-8 is by their characters. */
  predicate Before(a: string, b: string) {
    if b == "" then false
    else if a == "" then true
    else if a[0] == b[0] then Before(a[1..], b[1..])
    else a[0] < b[0]
  }

  predicate Ascending(paths: seq<string>) { forall i, j :: 0 <= i < j < |paths| ==> Before(paths[i], paths[j]) }

  /** What one file makes, on its own. */
  function Outcome(file: File, zones: Zones): Result<Profile, Reason> {
    match file
    case Unreadable => Err(CannotRead)
    case Contents(toml) =>
      if OutdatedVersion(toml).Some? then Err(Outdated(OutdatedVersion(toml).value))
      else match Parse(toml, zones)
        case Err(e) => Err(Rejected(e))
        case Ok(p) => Ok(p)
  }

  /** The profile a path offers: what its file says, if that describes a valid profile. */
  function Offer(files: map<string, File>, path: string, zones: Zones): Option<Profile> {
    if path in files && IsToml(path) && files[path].Contents? && files[path].toml.Table?
      && files[path].toml.fields.Some? && Describes(files[path].toml, files[path].toml.fields.value, zones)
    then files[path].toml.fields
    else None
  }

  /** Why a path that is not served is reported. */
  function ReasonFor(files: map<string, File>, path: string, zones: Zones): Reason
    requires path in files
  {
    if Offer(files, path, zones).Some? then SourceIdTaken(Offer(files, path, zones).value.sourceId)
    else match files[path]
      case Unreadable => CannotRead
      case Contents(NotATable) => Rejected(Malformed)
      case Contents(Table(version, fields)) =>
        if version.Some? && version.value != 2
        then Outdated((if version.value < 0 then 0 else version.value) % 0x1_0000_0000)
        else match Parse(Table(version, fields), zones)
          case Err(e) => Rejected(e)
          case Ok(_) => Rejected(Malformed)
  }

  /** A path is served if it offers a profile whose source id no path before it offers. */
  ghost predicate Served(files: map<string, File>, path: string, zones: Zones) {
    && Offer(files, path, zones).Some?
    && forall q :: Before(q, path) && Offer(files, q, zones).Some? ==>
         Offer(files, q, zones).value.sourceId != Offer(files, path, zones).value.sourceId
  }

  predicate Claimed(profiles: seq<Profile>, id: string) { exists p <- profiles :: p.sourceId == id }

  function WithFile(l: Loaded, path: string, file: File, zones: Zones): Loaded {
    match Outcome(file, zones)
    case Err(reason) => l.(unusable := l.unusable + [Unusable(path, reason)])
    case Ok(p) =>
      if Claimed(l.profiles, p.sourceId) then l.(unusable := l.unusable + [Unusable(path, SourceIdTaken(p.sourceId))])
      else l.(profiles := l.profiles + [p])
  }

  /** The files of some paths, in the order of the paths. */
  function Load(files: map<string, File>, paths: seq<string>, zones: Zones): Loaded
    requires forall p :: p in paths ==> p in files
  {
    if paths == [] then Loaded([], [])
    else
      var n := |paths| - 1;
      WithFile(Load(files, paths[..n], zones), paths[n], files[paths[n]], zones)
  }

  lemma LoadNothing(files: map<string, File>, zones: Zones)
    ensures Load(files, [], zones) == Loaded([], [])
  {
  }

  lemma LoadOneMore(files: map<string, File>, paths: seq<string>, i: nat, zones: Zones)
    requires i < |paths| && forall p :: p in paths ==> p in files
    ensures Load(files, paths[..i + 1], zones)
         == WithFile(Load(files, paths[..i], zones), paths[i], files[paths[i]], zones)
  {
    hide WithFile;
    assert paths[..i + 1][..i] == paths[..i] && paths[..i + 1][i] == paths[i];
  }

  // ----- the order of paths ---------------------------------------------------------------

  lemma {:induction false} BeforeIsTotal(a: string, b: string)
    ensures !(Before(a, b) && Before(b, a)) && (a != b ==> Before(a, b) || Before(b, a)) && !Before(a, a)
  {
    if a != "" {
      BeforeIsTotal(a[1..], a[1..]);
      if b != "" && a[0] == b[0] {
        BeforeIsTotal(a[1..], b[1..]);
        assert a == [a[0]] + a[1..] && b == [b[0]] + b[1..];
      }
    }
  }

  /** The first `k` characters agree, and then `a` ends or has the smaller one. */
  predicate DiffersAt(a: string, b: string, k: nat) {
    k <= |a| && k < |b| && a[..k] == b[..k] && (k == |a| || a[k] < b[k])
  }

  lemma FirstAgrees(a: string, b: string, k: nat)
    ensures DiffersAt(a, b, k) && k > 0 ==> a != "" && a[0] == b[0]
  {
    if DiffersAt(a, b, k) && k > 0 { assert a[0] == a[..k][0] && b[0] == b[..k][0]; }
  }

  /** A path comes before another if it is a proper prefix of it, or smaller where they first differ. */
  lemma {:induction false} BeforeIsLexicographic(a: string, b: string)
    ensures Before(a, b) <==> exists k: nat :: DiffersAt(a, b, k)
  {
    if a == "" || b == "" || a[0] != b[0] {
      forall k: nat ensures DiffersAt(a, b, k) && k > 0 ==> a != "" && a[0] == b[0] { FirstAgrees(a, b, k); }
      assert DiffersAt(a, b, 0) <==> Before(a, b);
    } else {
      BeforeIsLexicographic(a[1..], b[1..]);
      if Before(a, b) {
        var k: nat :| DiffersAt(a[1..], b[1..], k);
        assert a[..k + 1] == [a[0]] + a[1..][..k] && b[..k + 1] == [b[0]] + b[1..][..k];
        assert DiffersAt(a, b, k + 1);
      }
      if k: nat :| DiffersAt(a, b, k) {
        assert k > 0 && a[1..][..k - 1] == a[..k][1..] && b[1..][..k - 1] == b[..k][1..];
        assert DiffersAt(a[1..], b[1..], k - 1);
      }
    }
  }

  lemma {:induction false} BeforeIsTransitive(a: string, b: string, c: string)
    requires Before(a, b) && Before(b, c)
    ensures Before(a, c)
  {
    if a != "" && a[0] == b[0] == c[0] { BeforeIsTransitive(a[1..], b[1..], c[1..]); }
  }

  function Inserted(paths: seq<string>, path: string): (r: seq<string>)
    ensures multiset(r) == multiset(paths) + multiset{path}
  {
    if paths == [] then [path]
    else if Before(path, paths[0]) then [path] + paths
    else
      assert paths == [paths[0]] + paths[1..];
      [paths[0]] + Inserted(paths[1..], path)
  }

  function Sorted(paths: seq<string>): (r: seq<string>)
    ensures multiset(r) == multiset(paths)
  {
    if paths == [] then []
    else
      assert paths == [paths[0]] + paths[1..];
      Inserted(Sorted(paths[1..]), paths[0])
  }

  lemma InMultiset(a: seq<string>, b: seq<string>, x: string)
    requires multiset(a) == multiset(b)
    ensures x in a <==> x in b
  {
    assert x in a <==> x in multiset(a);
    assert x in b <==> x in multiset(b);
  }

  lemma {:induction false} InsertedAscends(paths: seq<string>, path: string)
    requires Ascending(paths) && path !in paths
    ensures Ascending(Inserted(paths, path))
  {
    if paths != [] {
      BeforeIsTotal(path, paths[0]);
      assert paths[0] in paths;
      if Before(path, paths[0]) {
        forall j | 0 <= j < |paths| ensures Before(path, paths[j]) {
          if j > 0 { BeforeIsTransitive(path, paths[0], paths[j]); }
        }
      } else {
        InsertedAscends(paths[1..], path);
        var rest := Inserted(paths[1..], path);
        forall j | 0 <= j < |rest| ensures Before(paths[0], rest[j]) {
          assert rest[j] in multiset(rest);
          if rest[j] != path {
            assert rest[j] in multiset(paths[1..]);
            assert rest[j] in paths[1..];
          }
        }
      }
    }
  }

  predicate NoRepeats(paths: seq<string>) { forall i, j :: 0 <= i < j < |paths| ==> paths[i] != paths[j] }

  lemma {:induction false} SortedAscends(paths: seq<string>)
    requires NoRepeats(paths)
    ensures Ascending(Sorted(paths))
  {
    if paths != [] {
      SortedAscends(paths[1..]);
      InMultiset(Sorted(paths[1..]), paths[1..], paths[0]);
      InsertedAscends(Sorted(paths[1..]), paths[0]);
    }
  }

  /** A set of paths has one ascending order. */
  lemma {:induction false} OneOrder(a: seq<string>, b: seq<string>)
    requires Ascending(a) && Ascending(b)
    requires forall p :: p in a <==> p in b
    ensures a == b
  {
    assert (a != [] ==> a[0] in a) && (b != [] ==> b[0] in b);
    if a != [] {
      SmallestFirst(a, b);
      assert a == [a[0]] + a[1..] && b == [b[0]] + b[1..];
      AscendingIsDistinct(a);
      AscendingIsDistinct(b);
      forall p ensures p in a[1..] <==> p in b[1..] {
        assert p in a[1..] <==> p in a && p != a[0];
        assert p in b[1..] <==> p in b && p != b[0];
      }
      OneOrder(a[1..], b[1..]);
    }
  }

  lemma AscendingIsDistinct(a: seq<string>)
    requires Ascending(a)
    ensures NoRepeats(a)
    ensures a != [] ==> a[0] !in a[1..]
  {
    forall i, j | 0 <= i < j < |a| ensures a[i] != a[j] { BeforeIsTotal(a[i], a[j]); }
  }

  lemma SmallestFirst(a: seq<string>, b: seq<string>)
    requires Ascending(a) && Ascending(b) && a != [] && b != [] && a[0] in b && b[0] in a
    ensures a[0] == b[0]
  {
    if a[0] != b[0] {
      var i :| 0 <= i < |a| && a[i] == b[0];
      var j :| 0 <= j < |b| && b[j] == a[0];
      BeforeIsTotal(a[0], b[0]);
    }
  }

  // ----- what loading means ------------------------------------------------------------------

  function TomlPaths(listed: seq<string>): (r: seq<string>)
    ensures forall p :: p in r <==> p in listed && IsToml(p)
    ensures NoRepeats(listed) ==> NoRepeats(r)
  {
    if listed == [] then []
    else if IsToml(listed[0]) then [listed[0]] + TomlPaths(listed[1..])
    else TomlPaths(listed[1..])
  }

  /** What listing a directory yields: every name once, in whatever order. */
  ghost predicate IsListing(listed: seq<string>, files: map<string, File>) {
    NoRepeats(listed) && forall p :: p in listed <==> p in files
  }

  /** The paths that loading visits, in order. */
  ghost predicate Visits(paths: seq<string>, files: map<string, File>) {
    Ascending(paths) && forall p :: p in paths <==> p in files && IsToml(p)
  }

  lemma SortedVisits(listed: seq<string>, files: map<string, File>)
    requires IsListing(listed, files)
    ensures Visits(Sorted(TomlPaths(listed)), files)
  {
    var paths := TomlPaths(listed);
    SortedAscends(paths);
    forall p ensures p in Sorted(paths) <==> p in paths { InMultiset(Sorted(paths), paths, p); }
  }

  /** What loading a directory gives. */
  ghost function LoadDirectory(dir: Directory, zones: Zones): Loaded {
    match dir
    case Absent => Loaded([], [Unusable("", NoDirectory)])
    case Listing(files) =>
      if exists paths :: Visits(paths, files) then
        var paths :| Visits(paths, files);
        Load(files, paths, zones)
      else Loaded([], [])
  }

  /** The result does not depend on the order the directory is listed in. */
  lemma ListingOrderIsIrrelevant(listed: seq<string>, files: map<string, File>, zones: Zones)
    requires IsListing(listed, files)
    ensures Visits(Sorted(TomlPaths(listed)), files)
    ensures LoadDirectory(Listing(files), zones) == Load(files, Sorted(TomlPaths(listed)), zones)
  {
    SortedVisits(listed, files);
    forall paths | Visits(paths, files) ensures paths == Sorted(TomlPaths(listed)) {
      OneOrder(paths, Sorted(TomlPaths(listed)));
    }
  }

  /** Paths in ascending order, with every path before one of them. */
  ghost predicate Closed(files: map<string, File>, paths: seq<string>) {
    && Ascending(paths)
    && (forall p :: p in paths ==> p in files && IsToml(p))
    && (forall p, q :: p in paths && Before(q, p) && q in files && IsToml(q) ==> q in paths)
  }

  /**
    Every path is accounted for once: its profile is served if it is the first to offer its
    source id, and otherwise the path is reported; reports are in the order of the paths.
   */
  ghost predicate Accounts(l: Loaded, files: map<string, File>, paths: seq<string>, zones: Zones) {
    && UniqueSourceIds(l.profiles)
    && |l.profiles| + |l.unusable| == |paths|
    && (forall p :: p in l.profiles <==>
          exists q <- paths :: Served(files, q, zones) && Offer(files, q, zones) == Some(p))
    && (forall q :: (exists u <- l.unusable :: u.path == q) <==> q in paths && !Served(files, q, zones))
    && (forall i, j :: 0 <= i < j < |l.unusable| ==> Before(l.unusable[i].path, l.unusable[j].path))
    && (forall u :: u in l.unusable ==> u.path in files && u.reason == ReasonFor(files, u.path, zones))
  }

  lemma {:induction false} LoadAccounts(files: map<string, File>, paths: seq<string>, zones: Zones)
    requires Closed(files, paths)
    ensures Accounts(Load(files, paths, zones), files, paths, zones)
  {
    hide Offer, Outcome, IsToml, Before, WithFile, Accounts, Served, ReasonFor;
    if paths == [] {
      NothingAccounts(files, zones);
    } else {
      var n := |paths| - 1;
      ClosedPrefix(files, paths[..n], paths[n]);
      LoadAccounts(files, paths[..n], zones);
      ServedWhenUnclaimed(files, paths[..n], paths[n], Load(files, paths[..n], zones), zones);
      OneMoreAccounts(files, paths[..n], paths[n], Load(files, paths[..n], zones), zones);
      assert paths == paths[..n] + [paths[n]];
    }
  }

  lemma NothingAccounts(files: map<string, File>, zones: Zones)
    ensures Accounts(Loaded([], []), files, [], zones)
  {
  }

  lemma ClosedPrefix(files: map<string, File>, init: seq<string>, path: string)
    requires Closed(files, init + [path])
    ensures Closed(files, init)
    ensures forall q :: q in files && IsToml(q) ==> (q in init <==> Before(q, path))
  {
    hide IsToml, Before;
    var paths := init + [path];
    forall q | q in init ensures Before(q, path) {
      var i :| 0 <= i < |init| && init[i] == q;
      assert paths[i] == q && paths[|init|] == path;
    }
    BeforeIsTotal(path, path);
    assert paths[|init|] == path;
    forall i, j | 0 <= i < j < |init| ensures Before(init[i], init[j]) {
      assert paths[i] == init[i] && paths[j] == init[j];
    }
    forall p, q | p in init && Before(q, p) && q in files && IsToml(q) ensures q in init {
      assert p in paths && q in paths;
      BeforeIsTotal(p, path);
    }
  }

  lemma OneMoreAccounts(files: map<string, File>, init: seq<string>, path: string, l: Loaded, zones: Zones)
    requires Accounts(l, files, init, zones) && path in files && IsToml(path)
    requires forall q :: q in init ==> Before(q, path)
    requires Served(files, path, zones) <==>
      Offer(files, path, zones).Some? && !Claimed(l.profiles, Offer(files, path, zones).value.sourceId)
    ensures Accounts(WithFile(l, path, files[path], zones), files, init + [path], zones)
  {
    hide Before, Served, Accounts, IsValid;
    var after := WithFile(l, path, files[path], zones);
    OutcomeIsOffer(files, path, zones);
    hide Offer, ReasonFor, Outcome, IsToml;
    if Served(files, path, zones) {
      ServedAccounts(files, init, path, l, Offer(files, path, zones).value, zones);
    } else {
      ReportAccounts(files, init, path, l, after.unusable[|l.unusable|], zones);
    }
  }

  /** What the loop makes of one file is what the file offers, or the reason it offers nothing. */
  lemma OutcomeIsOffer(files: map<string, File>, path: string, zones: Zones)
    requires path in files && IsToml(path)
    ensures match Outcome(files[path], zones)
      case Ok(p) => Offer(files, path, zones) == Some(p)
      case Err(reason) => Offer(files, path, zones) == None && reason == ReasonFor(files, path, zones)
  {
    hide IsToml, IsValid;
  }

  lemma ServedAccounts(files: map<string, File>, init: seq<string>, path: string, l: Loaded, p: Profile, zones: Zones)
    requires Accounts(l, files, init, zones)
    requires Served(files, path, zones) && Offer(files, path, zones) == Some(p) && !Claimed(l.profiles, p.sourceId)
    ensures Accounts(l.(profiles := l.profiles + [p]), files, init + [path], zones)
  {
  }

  lemma ReportAccounts(files: map<string, File>, init: seq<string>, path: string, l: Loaded, u: Unusable, zones: Zones)
    requires Accounts(l, files, init, zones) && !Served(files, path, zones)
    requires path in files && u == Unusable(path, ReasonFor(files, path, zones))
    requires forall q :: q in init ==> Before(q, path)
    ensures Accounts(l.(unusable := l.unusable + [u]), files, init + [path], zones)
  {
  }

  /** The path is served exactly when nothing loaded before it has its source id. */
  lemma ServedWhenUnclaimed(files: map<string, File>, init: seq<string>, path: string, l: Loaded, zones: Zones)
    requires Closed(files, init) && path in files && IsToml(path) && Accounts(l, files, init, zones)
    requires forall q :: q in files && IsToml(q) ==> (q in init <==> Before(q, path))
    ensures Served(files, path, zones) <==>
      Offer(files, path, zones).Some? && !Claimed(l.profiles, Offer(files, path, zones).value.sourceId)
  {
    hide Outcome, IsToml, Before, Closed;
    if Offer(files, path, zones).Some? {
      var id := Offer(files, path, zones).value.sourceId;
      if q :| Before(q, path) && Offer(files, q, zones).Some? && Offer(files, q, zones).value.sourceId == id {
        var first := FirstOffer(files, init, q, id, zones);
        assert Offer(files, first, zones).value in l.profiles;
      }
    }
  }

  /** Some path at or before one that offers an id is the first to offer it. */
  lemma {:induction false} FirstOffer(files: map<string, File>, paths: seq<string>, path: string, id: string,
                                      zones: Zones)
    returns (first: string)
    requires Closed(files, paths) && path in paths
    requires Offer(files, path, zones).Some? && Offer(files, path, zones).value.sourceId == id
    ensures first in paths && Served(files, first, zones)
    ensures Offer(files, first, zones).Some? && Offer(files, first, zones).value.sourceId == id
    decreases Rank(paths, path)
  {
    hide Outcome, IsToml, Before;
    if Served(files, path, zones) {
      first := path;
    } else {
      var q :| Before(q, path) && Offer(files, q, zones).Some? && Offer(files, q, zones).value.sourceId == id;
      RankFollows(paths, q, path);
      first := FirstOffer(files, paths, q, id, zones);
    }
  }

  /** Where a path stands. */
  function Rank(paths: seq<string>, path: string): (n: nat)
    ensures path in paths ==> n < |paths| && paths[n] == path
  {
    if paths == [] || paths[0] == path then 0 else 1 + Rank(paths[1..], path)
  }

  lemma RankFollows(paths: seq<string>, a: string, b: string)
    requires Ascending(paths) && a in paths && b in paths && Before(a, b)
    ensures Rank(paths, a) < Rank(paths, b)
  {
    var i, j := Rank(paths, a), Rank(paths, b);
    BeforeIsTotal(a, b);
  }

  lemma VisitsIsClosed(files: map<string, File>, paths: seq<string>)
    requires Visits(paths, files)
    ensures Closed(files, paths)
  {
    hide IsToml, Before;
  }

  /**
    Loading a directory: every `.toml` path is served or reported, exactly once; the served
    source ids are unique, and of the paths that offer one the first serves it.
   */
  lemma DirectoryAccounts(files: map<string, File>, zones: Zones) returns (paths: seq<string>)
    ensures Visits(paths, files)
    ensures LoadDirectory(Listing(files), zones) == Load(files, paths, zones)
    ensures Accounts(Load(files, paths, zones), files, paths, zones)
  {
    hide Load, Accounts, Closed, TomlPaths, Sorted;
    var listed := NamesOf(files.Keys);
    ListingOrderIsIrrelevant(listed, files, zones);
    paths := Sorted(TomlPaths(listed));
    VisitsIsClosed(files, paths);
    LoadAccounts(files, paths, zones);
  }

  lemma {:induction false} NamesOf(names: set<string>) returns (listed: seq<string>)
    ensures NoRepeats(listed) && forall p :: p in listed <==> p in names
  {
    listed := [];
    if names != {} {
      var name :| name in names;
      listed := NamesOf(names - {name});
      listed := listed + [name];
    }
  }

  // ----- the objects ---------------------------------------------------------------------------

  function ById(profiles: seq<Profile>): map<string, Profile> {
    if profiles == [] then map[]
    else
      var n := |profiles| - 1;
      ById(profiles[..n])[profiles[n].sourceId := profiles[n]]
  }

  /** What the running service reads. */
  ghost function LoadMap(dir: Directory, zones: Zones): map<string, Profile> {
    ById(LoadDirectory(dir, zones).profiles)
  }

  predicate Maps(m: map<string, Profile>, id: string, p: Profile) { id in m && m[id] == p }

  lemma {:induction false} ByIdIsOne(profiles: seq<Profile>)
    requires UniqueSourceIds(profiles)
    ensures forall id, p :: Maps(ById(profiles), id, p) <==> p in profiles && p.sourceId == id
  {
    if profiles != [] {
      var n := |profiles| - 1;
      var init, last := profiles[..n], profiles[n];
      ByIdIsOne(init);
      assert profiles == init + [last];
      assert forall p :: p in profiles <==> p in init || p == last;
      forall p | p in init ensures p.sourceId != last.sourceId {
        var i :| 0 <= i < n && init[i] == p;
      }
      var before := ById(init);
      var now := before[last.sourceId := last];
      hide ById;
      forall id, p ensures Maps(now, id, p) <==> p in profiles && p.sourceId == id {
        assert Maps(before, id, p) <==> p in init && p.sourceId == id;
      }
      assert ById(profiles) == now by { LastById(profiles); }
    }
  }

  lemma LastById(profiles: seq<Profile>)
    requires profiles != []
    ensures var n := |profiles| - 1;
      ById(profiles) == ById(profiles[..n])[profiles[n].sourceId := profiles[n]]
  {
  }

  /** A source is served from exactly the first path that offers its id. */
  lemma MapServesFirst(files: map<string, File>, zones: Zones, id: string, p: Profile)
    ensures var served := LoadMap(Listing(files), zones);
      Maps(served, id, p) <==>
        exists q :: Served(files, q, zones) && Offer(files, q, zones) == Some(p) && p.sourceId == id
  {
    hide Load, ById, LoadDirectory, Outcome, IsToml, Before;
    var paths := DirectoryAccounts(files, zones);
    var l := Load(files, paths, zones);
    ByIdIsOne(l.profiles);
    if q :| Served(files, q, zones) && Offer(files, q, zones) == Some(p) && p.sourceId == id {
      assert q in paths;
    }
  }

  /** So a source id is served exactly when some path offers it. */
  lemma ServedExactlyWhenOffered(files: map<string, File>, zones: Zones, id: string)
    ensures id in LoadMap(Listing(files), zones) <==>
      exists q :: Offer(files, q, zones).Some? && Offer(files, q, zones).value.sourceId == id
  {
    hide Load, ById, LoadDirectory, Outcome, IsToml, Before, Served;
    var served := LoadMap(Listing(files), zones);
    if id in served {
      assert Maps(served, id, served[id]);
      MapServesFirst(files, zones, id, served[id]);
    }
    if q :| Offer(files, q, zones).Some? && Offer(files, q, zones).value.sourceId == id {
      var paths := DirectoryAccounts(files, zones);
      OffersAreVisited(files, q, zones);
      VisitsIsClosed(files, paths);
      var first := FirstOffer(files, paths, q, id, zones);
      MapServesFirst(files, zones, id, Offer(files, first, zones).value);
    }
  }

  lemma OffersAreVisited(files: map<string, File>, q: string, zones: Zones)
    requires Offer(files, q, zones).Some?
    ensures q in files && IsToml(q)
  {
  }

  class ProfilesDirectory {
    var dir: Directory

    constructor (dir: Directory)
      ensures this.dir == dir
    {
      this.dir := dir;
    }

    /** Reads every profile of the directory, listed in whatever order. Never fails. */
    method LoadAll(listed: seq<string>, zones: Zones) returns (loaded: Loaded)
      requires dir.Listing? ==> IsListing(listed, dir.files)
      ensures loaded == LoadDirectory(dir, zones)
    {
      if dir.Absent? { return Loaded([], [Unusable("", NoDirectory)]); }
      hide Sorted, TomlPaths, IsToml, Ascending, IsListing, Parse, OutdatedVersion, Load, LoadDirectory, Claimed;
      ListingOrderIsIrrelevant(listed, dir.files, zones);
      var paths := Sorted(TomlPaths(listed));
      var profiles: seq<Profile> := [];
      var unusable: seq<Unusable> := [];
      var i := 0;
      LoadNothing(dir.files, zones);
      assert paths[..0] == [];
      while i < |paths|
        invariant 0 <= i <= |paths|
        invariant Loaded(profiles, unusable) == Load(dir.files, paths[..i], zones)
      {
        LoadOneMore(dir.files, paths, i, zones);
        var path := paths[i];
        match Outcome(dir.files[path], zones) {
          case Err(reason) => unusable := unusable + [Unusable(path, reason)];
          case Ok(p) =>
            if Claimed(profiles, p.sourceId) {
              unusable := unusable + [Unusable(path, SourceIdTaken(p.sourceId))];
            } else {
              profiles := profiles + [p];
            }
        }
        i := i + 1;
      }
      assert paths[..i] == paths;
      loaded := Loaded(profiles, unusable);
    }

    /** Adds a profile under its own name; `made` and `written` say whether the disk agrees. */
    method SaveNew(contents: Toml, listed: seq<string>, zones: Zones, made: bool, written: bool)
      returns (r: Result<Profile, SaveError>)
      requires dir.Listing? ==> IsListing(listed, dir.files)
      modifies this
      ensures var before := if old(dir).Absent? && made then Listing(map[]) else old(dir);
        && r == SaveResult(before, contents, zones, written)
        && dir == (if r.Ok? && before.Listing?
                   then Listing(before.files[r.value.sourceId + ".toml" := Contents(contents)])
                   else if Parse(contents, zones).Err? then old(dir) else before)
    {
      var profile := Parse(contents, zones);
      if profile.Err? { return Err(Invalid(profile.error)); }
      var names := listed;
      if dir.Absent? {
        if !made { return Err(NotWritable); }
        dir := Listing(map[]);
        names := [];
      }
      var existing := LoadAll(names, zones);
      if Claimed(existing.profiles, profile.value.sourceId) { return Err(AlreadyServed); }
      var path := FileName(profile.value.sourceId);
      if path in dir.files { return Err(FileExists); }
      if !written { return Err(NotWritable); }
      dir := Listing(dir.files[path := Contents(contents)]);
      r := Ok(profile.value);
    }

    /** Removes a source's file; `removed` says whether the disk agrees. */
    method Delete(sourceId: string, removed: bool) returns (r: Result<string, SaveError>)
      modifies this
      ensures var path := sourceId + ".toml";
        && (r.Ok? <==> SourceIdIsSafe(sourceId) && old(dir).Listing? && path in old(dir).files && removed)
        && (r.Ok? ==> r.value == path)
        && dir == (if r.Ok? && old(dir).Listing? then Listing(old(dir).files - {path}) else old(dir))
    {
      if !SourceIdIsSafe(sourceId) { return Err(Unsafe); }
      var path := FileName(sourceId);
      if dir.Absent? || path !in dir.files { return Err(NoSuchFile); }
      if !removed { return Err(NotWritable); }
      dir := Listing(dir.files - {path});
      r := Ok(path);
    }
  }

  datatype SaveError = Invalid(error: ProfileError) | AlreadyServed | FileExists | NoSuchFile | Unsafe | NotWritable

  ghost function SaveResult(dir: Directory, contents: Toml, zones: Zones, written: bool): Result<Profile, SaveError> {
    match Parse(contents, zones)
    case Err(e) => Err(Invalid(e))
    case Ok(p) =>
      if dir.Absent? then Err(NotWritable)
      else if Claimed(LoadDirectory(dir, zones).profiles, p.sourceId) then Err(AlreadyServed)
      else if FileName(p.sourceId) in dir.files then Err(FileExists)
      else if !written then Err(NotWritable)
      else Ok(p)
  }

  /**
    Saving a profile makes exactly that source served, with exactly that profile, and changes
    no other source; it is refused when the source is served already.
   */
  lemma SavedIsServed(files: map<string, File>, contents: Toml, zones: Zones)
    requires SaveResult(Listing(files), contents, zones, true).Ok?
    ensures var p := SaveResult(Listing(files), contents, zones, true).value;
      && contents.Table? && contents.fields == Some(p)
      && p.sourceId !in LoadMap(Listing(files), zones)
      && LoadMap(Listing(files[FileName(p.sourceId) := Contents(contents)]), zones)
         == LoadMap(Listing(files), zones)[p.sourceId := p]
  {
    hide LoadMap, LoadDirectory, Before, IsToml;
    var p := Parse(contents, zones).value;
    var path := FileName(p.sourceId);
    var after := files[path := Contents(contents)];
    ClaimedMeansServed(files, zones, p.sourceId);
    ServedExactlyWhenOffered(files, zones, p.sourceId);
    FileNameIsToml(p.sourceId);
    SavedOffers(files, contents, zones, p);
    var old_, new_ := LoadMap(Listing(files), zones), LoadMap(Listing(after), zones);
    forall id, q ensures Maps(new_, id, q) <==> Maps(old_[p.sourceId := p], id, q) {
      MapServesFirst(files, zones, id, q);
      MapServesFirst(after, zones, id, q);
      SavedServes(files, after, path, p, zones, id, q);
    }
    SameMap(new_, old_[p.sourceId := p]);
  }

  lemma SameMap(a: map<string, Profile>, b: map<string, Profile>)
    requires forall id, p :: Maps(a, id, p) <==> Maps(b, id, p)
    ensures a == b
  {
    forall id ensures id in a ==> Maps(b, id, a[id]) {
      if id in a { assert Maps(a, id, a[id]); }
    }
    forall id ensures id in b ==> Maps(a, id, b[id]) {
      if id in b { assert Maps(b, id, b[id]); }
    }
  }

  lemma FileNameIsToml(id: string)
    requires id != ""
    ensures IsToml(FileName(id))
  {
    assert FileName(id)[|FileName(id)| - 5..] == ".toml";
  }

  lemma SavedOffers(files: map<string, File>, contents: Toml, zones: Zones, p: Profile)
    requires Parse(contents, zones) == Ok(p) && IsToml(FileName(p.sourceId))
    ensures Offer(files[FileName(p.sourceId) := Contents(contents)], FileName(p.sourceId), zones) == Some(p)
    ensures forall q :: q != FileName(p.sourceId) ==>
      Offer(files[FileName(p.sourceId) := Contents(contents)], q, zones) == Offer(files, q, zones)
  {
  }

  lemma ClaimedMeansServed(files: map<string, File>, zones: Zones, id: string)
    ensures Claimed(LoadDirectory(Listing(files), zones).profiles, id) <==> id in LoadMap(Listing(files), zones)
  {
    hide LoadDirectory, Load, Accounts;
    var paths := DirectoryAccounts(files, zones);
    var profiles := Load(files, paths, zones).profiles;
    assert UniqueSourceIds(profiles) by { AccountsUnique(Load(files, paths, zones), files, paths, zones); }
    ByIdIsOne(profiles);
    hide ById;
    if Claimed(profiles, id) {
      var p :| p in profiles && p.sourceId == id;
      assert Maps(ById(profiles), id, p);
    }
    if id in ById(profiles) { assert Maps(ById(profiles), id, ById(profiles)[id]); }
  }

  lemma AccountsUnique(l: Loaded, files: map<string, File>, paths: seq<string>, zones: Zones)
    requires Accounts(l, files, paths, zones)
    ensures UniqueSourceIds(l.profiles)
  {
  }

  /** A new file whose source id nothing offered is served, and disturbs no other. */
  lemma SavedServes(files: map<string, File>, after: map<string, File>, path: string, p: Profile, zones: Zones,
                    id: string, q: Profile)
    requires Offer(after, path, zones) == Some(p) && Offer(files, path, zones).None?
    requires forall x :: x != path ==> Offer(after, x, zones) == Offer(files, x, zones)
    requires forall x :: Offer(files, x, zones).Some? ==> Offer(files, x, zones).value.sourceId != p.sourceId
    ensures (exists x :: Served(after, x, zones) && Offer(after, x, zones) == Some(q) && q.sourceId == id)
       <==> (if id == p.sourceId then q == p
             else exists x :: Served(files, x, zones) && Offer(files, x, zones) == Some(q) && q.sourceId == id)
  {
    hide Offer, Before;
    BeforeIsTotal(path, path);
    assert Served(after, path, zones);
    forall x | x != path ensures Served(after, x, zones) <==> Served(files, x, zones) {}
  }

  /** A profile is saved exactly if it is valid, no file offers its id, and its own file does not exist yet. */
  lemma SavedExactlyWhen(files: map<string, File>, contents: Toml, zones: Zones, written: bool)
    ensures SaveResult(Listing(files), contents, zones, written).Ok? <==>
      && written && contents.Table? && contents.fields.Some?
      && var p := contents.fields.value;
         && Describes(contents, p, zones) && p.sourceId + ".toml" !in files
         && forall q :: Offer(files, q, zones).Some? ==> Offer(files, q, zones).value.sourceId != p.sourceId
  {
    hide LoadMap, LoadDirectory, IsValid, Offer;
    if Parse(contents, zones).Ok? {
      var id := Parse(contents, zones).value.sourceId;
      ClaimedMeansServed(files, zones, id);
      ServedExactlyWhenOffered(files, zones, id);
    }
  }

  /** Different sources have different files, each one segment of a path. */
  lemma FileNamesDiffer(a: string, b: string)
    ensures FileName(a) == FileName(b) <==> a == b
    ensures SourceIdIsSafe(a) ==> IsToml(FileName(a)) && forall i :: 0 <= i < |FileName(a)| ==> FileName(a)[i] != '/'
  {
    if FileName(a) == FileName(b) { assert a == FileName(a)[..|a|] && b == FileName(b)[..|b|]; }
    if a != "" { FileNameIsToml(a); }
  }

  /**
    Deleting a source's file stops serving it exactly when no other file offers its id:
    otherwise the next file in order takes its place.
   */
  lemma DeletedStaysGone(files: map<string, File>, zones: Zones, id: string)
    ensures id in LoadMap(Listing(files - {id + ".toml"}), zones) <==>
      exists q :: q != id + ".toml" && Offer(files, q, zones).Some? && Offer(files, q, zones).value.sourceId == id
  {
    hide LoadMap, Outcome, IsToml;
    var after := files - {FileName(id)};
    ServedExactlyWhenOffered(after, zones, id);
    forall q ensures Offer(after, q, zones) == if q == FileName(id) then None else Offer(files, q, zones) {}
  }
}
