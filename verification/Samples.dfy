/** A source, a library and entries small enough to follow, for the runs that show what can go wrong. */
module Samples {
  import opened Wrappers
  import opened Text
  import opened Records
  import opened Request
  import opened Door
  import opened Delivery
  import Json
  import Profile

  /** Every timestamp names one moment, with room for the hour an event lasts. */
  const LIBRARY := Library(_ => Some(Moment(0, 0)), _ => None, _ => true, 60 * MINUTE, 0)

  const PROFILE := Profile.Profile(2, "s", "calendar", "UTC", None)

  const KEY: string := Profile.Key("s", "x")

  function Payload(title: string): Json.Value {
    Json.Obj(Json.Cons(Json.Member("title", Json.Str(title)),
      Json.Cons(Json.Member("start", Json.Str("now")),
        Json.Cons(Json.Member("external_id", Json.Str("x")), Json.Nil))))
  }

  /** An entry of the source for its event `x`. */
  function Sample(id: string, title: string): Entry { Entry(id, "s", "now", Payload(title), None) }

  lemma Found(title: string, key: string)
    ensures Get(Payload(title).members, key) ==
      if key == "external_id" then Some(Json.Str("x"))
      else if key == "start" then Some(Json.Str("now"))
      else if key == "title" then Some(Json.Str(title))
      else None
  {
    var last := Json.Cons(Json.Member("external_id", Json.Str("x")), Json.Nil);
    var rest := Json.Cons(Json.Member("start", Json.Str("now")), last);
    assert Get(last, key) == if key == "external_id" then Some(Json.Str("x")) else None;
    assert Get(rest, key) == match Get(last, key)
      case Some(v) => Some(v)
      case None => if "start" == key then Some(Json.Str("now")) else None;
  }

  /** Every other field is left out. */
  lemma Absent(title: string)
    ensures var ms := Payload(title).members;
      && Get(ms, "description") == Get(ms, "location") == Get(ms, "end") == Get(ms, "color") == None
      && Get(ms, "duration_minutes") == Get(ms, "duration_days") == Get(ms, "all_day") == Get(ms, "busy") == None
      && Get(ms, "status") == Get(ms, "reminders") == Get(ms, "timezone") == None
  {
    assert Payload(title).Obj?;
    hide Get, Payload;
    assert |"title"| == 5 && |"start"| == 5 && |"external_id"| == 11;
    assert "title"[0] == 't' && "start"[0] == 's' && "external_id"[0] == 'e';
    assert "description"[0] == 'd' && |"location"| == 8 && |"end"| == 3 && "color"[0] == 'c';
    assert |"duration_minutes"| == 16 && |"duration_days"| == 13 && |"all_day"| == 7 && |"busy"| == 4;
    assert |"status"| == 6 && |"reminders"| == 9 && |"timezone"| == 8;
    forall key ensures Get(Payload(title).members, key) ==
      if key == "external_id" then Some(Json.Str("x"))
      else if key == "start" then Some(Json.Str("now"))
      else if key == "title" then Some(Json.Str(title))
      else None
    {
      Found(title, key);
    }
  }

  lemma Present(title: string)
    ensures var ms := Payload(title).members;
      && Get(ms, "title") == Some(Json.Str(title)) && Get(ms, "start") == Some(Json.Str("now"))
      && Get(ms, "external_id") == Some(Json.Str("x")) && OnlyKnown(ms, FIELDS)
  {
    assert "title" == FIELDS[0] && "start" == FIELDS[1] && "external_id" == FIELDS[2];
    assert OnlyKnown(Payload(title).members, FIELDS);
    assert "title"[0] == 't' && "start"[0] == 's' && "external_id"[0] == 'e';
    hide Get, OnlyKnown;
    Found(title, "title");
    Found(title, "start");
    Found(title, "external_id");
  }

  lemma Parsed(title: string)
    ensures ParseRequest(Payload(title)) ==
      Some(EventRequest(title, "now", Some("x"), None, None, None, None, false, None, None, None, None, None, None))
  {
    Present(title);
    Absent(title);
    assert Payload(title).Obj?;
    hide Get, OnlyKnown, IntOf, ParseReminders, Payload;
  }

  /** Such an entry is mapped, goes by the source's key for `x`, and shows its title. */
  lemma SampleIsMapped(id: string, title: string)
    requires !IsBlank(title)
    ensures KeyOf(Sample(id, title), PROFILE, LIBRARY) == Some(KEY)
    ensures MapPayload(Payload(title), PROFILE, LIBRARY).Ok?
    ensures EventOf(Sample(id, title), PROFILE, LIBRARY).summary == title
  {
    Parsed(title);
    assert "x"[0] == 'x' && !IsWhitespace('x');
    hide ParseRequest, Payload, ResolveColor, ToReminders;
  }
}
