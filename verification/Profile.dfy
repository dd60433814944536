/** A source's profile: its identity, its calendar and two defaults. */
module Profile {
  import opened Wrappers
  import opened Text

  const SUPPORTED_SCHEMA_VERSION := 2
  const FALLBACK_DURATION_MINUTES := 60

  datatype Profile = Profile(
    schemaVersion: nat,
    sourceId: string,
    targetCalendarId: string,
    timezone: string,
    defaultDurationMinutes: Option<int>)

  /**
    A profile file as the TOML library presents it: not a table, or a table with the integer
    it gives `schema_version` and the profile its fields make, if they make one.
   */
  datatype Toml = NotATable | Table(version: Option<int>, fields: Option<Profile>)

  datatype ProfileError =
    | UnsupportedVersion(version: int)
    | Malformed
    | EmptySourceId
    | UnsafeSourceId
    | EmptyCalendar
    | UnknownTimezone
    | BadDefaultDuration
    | SharedSourceId(first: nat, second: nat)

  predicate IsIdChar(c: char) {
    'a' <= c <= 'z' || 'A' <= c <= 'Z' || '0' <= c <= '9' || c == '.' || c == '-' || c == '_'
  }

  predicate SourceIdIsSafe(id: string) {
    id != "" && id[0] != '.' && forall i :: 0 <= i < |id| ==> IsIdChar(id[i])
  }

  /** The version a file declares when it is not the one this build reads, cast to `u32`. */
  function OutdatedVersion(t: Toml): Option<nat> {
    if t.Table? && t.version.Some? && t.version.value != SUPPORTED_SCHEMA_VERSION
    then Some((if t.version.value < 0 then 0 else t.version.value) % 0x1_0000_0000)
    else None
  }

  /**
    Parses and validates a profile; `zones` tells the IANA names. What a table of the right
    version says is taken as it is, if it is valid; nothing else is.
   */
  function Parse(t: Toml, zones: string -> bool): (r: Result<Profile, ProfileError>)
    ensures r.Ok? <==> t.Table? && t.fields.Some? && Describes(t, t.fields.value, zones)
    ensures r.Ok? ==> t.fields == Some(r.value)
  {
    if t.NotATable? then Err(Malformed)
    else if t.version.Some? && t.version.value != SUPPORTED_SCHEMA_VERSION then
      Err(UnsupportedVersion(t.version.value))
    else if t.fields.None? then Err(Malformed)
    else
      var p := t.fields.value;
      if IsBlank(p.sourceId) then Err(EmptySourceId)
      else if !SourceIdIsSafe(p.sourceId) then Err(UnsafeSourceId)
      else if IsBlank(p.targetCalendarId) then Err(EmptyCalendar)
      else if !zones(p.timezone) then Err(UnknownTimezone)
      else if p.defaultDurationMinutes.Some? && p.defaultDurationMinutes.value <= 0 then Err(BadDefaultDuration)
      else Ok(p)
  }

  /** The table has these fields, declares no version or version 2, and is valid. */
  predicate Describes(t: Toml, p: Profile, zones: string -> bool) {
    && t.Table? && (t.version == None || t.version == Some(2)) && t.fields == Some(p)
    && IsValid(p, zones)
  }

  /** Why a table is refused: the first of the checks that fails. */
  lemma RefusedBecause(t: Toml, zones: string -> bool)
    requires Parse(t, zones).Err?
    ensures match Parse(t, zones).error
      case UnsupportedVersion(v) => t.Table? && t.version == Some(v) && v != 2
      case Malformed => t.NotATable? || t.fields.None?
      case EmptySourceId => t.fields.Some? && IsBlank(t.fields.value.sourceId)
      case UnsafeSourceId => t.fields.Some? && !SourceIdIsSafe(t.fields.value.sourceId)
      case EmptyCalendar => t.fields.Some? && IsBlank(t.fields.value.targetCalendarId)
      case UnknownTimezone => t.fields.Some? && !zones(t.fields.value.timezone)
      case BadDefaultDuration =>
        && t.fields.Some? && t.fields.value.defaultDurationMinutes.Some?
        && t.fields.value.defaultDurationMinutes.value <= 0
      case SharedSourceId(_, _) => false
  {
  }

  predicate IsAlphanumeric(c: char) { 'a' <= c <= 'z' || 'A' <= c <= 'Z' || '0' <= c <= '9' }

  /**
    A safe id is one segment of a path and one side of a key; letters and digits are safe, and
    so are dots, hyphens and underscores after them.
   */
  lemma SafeIds(id: string)
    ensures SourceIdIsSafe(id) ==> forall i :: 0 <= i < |id| ==>
      id[i] != '/' && id[i] != '\\' && id[i] != ':' && id[i] != '%' && !IsWhitespace(id[i])
    ensures SourceIdIsSafe(id) ==> id != "" && id != "." && id != ".."
    ensures id != "" && IsAlphanumeric(id[0])
      && (forall i :: 0 < i < |id| ==> IsAlphanumeric(id[i]) || id[i] == '.' || id[i] == '-' || id[i] == '_')
      ==> SourceIdIsSafe(id)
  {
  }

  /** What every profile that passed validation guarantees. */
  predicate IsValid(p: Profile, zones: string -> bool) {
    SourceIdIsSafe(p.sourceId) && !IsBlank(p.targetCalendarId) && zones(p.timezone)
    && (p.defaultDurationMinutes.Some? ==> p.defaultDurationMinutes.value > 0)
  }

  predicate UniqueSourceIds(ps: seq<Profile>) {
    forall i, j :: 0 <= i < j < |ps| ==> ps[i].sourceId != ps[j].sourceId
  }

  /** Refuses two profiles with one source id, naming the first pair met. */
  method ValidateUniqueSourceIds(ps: seq<Profile>) returns (r: Result<(), ProfileError>)
    ensures r.Ok? <==> UniqueSourceIds(ps)
    ensures r.Err? ==> r.error.SharedSourceId? && r.error.first < r.error.second < |ps|
    ensures r.Err? ==> ps[r.error.first].sourceId == ps[r.error.second].sourceId
    ensures r.Err? ==> UniqueSourceIds(ps[..r.error.second])
  {
    var seen: map<string, nat> := map[];
    for i := 0 to |ps|
      invariant forall id :: id in seen ==> seen[id] < i && ps[seen[id]].sourceId == id
      invariant forall k :: 0 <= k < i ==> ps[k].sourceId in seen
      invariant UniqueSourceIds(ps[..i])
    {
      var id := ps[i].sourceId;
      if id in seen { return Err(SharedSourceId(seen[id], i)); }
      seen := seen[id := i];
    }
    assert ps[..|ps|] == ps;
    r := Ok(());
  }

  // ----- upsert keys --------------------------------------------------------------

  /** The key of an event: its source and the source's own id for it. */
  function Key(sourceId: string, id: string): string { sourceId + ":" + id }

  /** Keys of sources with safe ids are equal only if source and id are: a source id has no colon. */
  lemma KeysAreInjective(source: string, id: string, source': string, id': string)
    requires SourceIdIsSafe(source) && SourceIdIsSafe(source')
    ensures Key(source, id) == Key(source', id') <==> source == source' && id == id'
  {
    var k, k' := Key(source, id), Key(source', id');
    if k == k' {
      assert k[|source|] == ':' && k'[|source'|] == ':';
      assert forall i :: 0 <= i < |source| ==> k[i] == source[i];
      assert forall i :: 0 <= i < |source'| ==> k'[i] == source'[i];
      assert |source| == |source'|;
      assert source == k[..|source|] && source' == k'[..|source'|];
      assert id == k[|source| + 1..] && id' == k'[|source'| + 1..];
    }
  }

  /**
    Safe source ids are what makes the keys unambiguous: one colon in an id is enough for
    two sources to share a key.
   */
  lemma ColonsWouldCollide(source: string, part: string, id: string)
    ensures Key(source + ":" + part, id) == Key(source, part + ":" + id)
    ensures !SourceIdIsSafe(source + ":" + part)
  {
    assert (source + ":" + part) + ":" + id == source + ":" + (part + ":" + id);
    assert (source + ":" + part)[|source|] == ':';
  }
}
