/** Delivery channels, their routes, and the two triggers that keep restricted routes off public
    channels (backend/migrations/088_channel_audience.ts). */
module ChannelAudience {
  import opened Options
  import opened Sequences
  import opened Text

  datatype Audience = Public | Ops

  datatype Route = Route(channel: int, eventType: string)

  predicate StartsWith(s: string, prefix: string) { prefix <= s }

  /** `RESTRICTED_PREDICATE`. */
  predicate Restricted(eventType: string) {
    eventType == "*" || eventType == "ops" || StartsWith(eventType, "ops.") ||
    eventType == "dispute" || StartsWith(eventType, "dispute.")
  }

  // ---- which patterns match an event ------------------------------------------------------

  predicate RestrictedNamespace(namespace: string) { namespace == "ops" || namespace == "dispute" }

  /** `eventTypeAudience`. */
  function EventAudience(eventType: string): Audience {
    if eventType == "*" || RestrictedNamespace(Split(eventType, '.')[0]) then Ops else Public
  }

  /** A prefix wildcard of an event type: some leading segments, then `.*`. */
  predicate PrefixPattern(eventType: string, pattern: string) {
    exists end :: 0 < end < |Split(eventType, '.')| && pattern == Glue(Split(eventType, '.')[..end], '.') + ".*"
  }

  /** The patterns a route may carry to receive an event: its own type, `*`, or a prefix wildcard. */
  predicate Matches(eventType: string, pattern: string) {
    pattern == eventType || pattern == "*" || PrefixPattern(eventType, pattern)
  }

  /** `eventTypeMatchers`. */
  method EventTypeMatchers(eventType: string) returns (matchers: seq<string>)
    ensures forall pattern :: pattern in matchers <==> Matches(eventType, pattern)
  {
    matchers := [eventType, "*"];
    var segments := Split(eventType, '.');
    var end := 1;
    while end < |segments|
      invariant 1 <= end <= |segments|
      invariant forall pattern :: pattern in matchers <==>
                  pattern == eventType || pattern == "*" ||
                  exists e :: 0 < e < end && pattern == Glue(segments[..e], '.') + ".*"
    {
      matchers := matchers + [Glue(segments[..end], '.') + ".*"];
      end := end + 1;
    }
  }

  lemma {:induction false} GluedFront(parts: seq<string>, end: nat, c: char)
    requires 0 < end < |parts|
    ensures Glue(parts, c) == Glue(parts[..end], c) + [c] + Glue(parts[end..], c)
  {
    if end == 1 {
      assert parts[..1] == [parts[0]];
    } else {
      GluedFront(parts[1..], end - 1, c);
      assert parts[1..][..end - 1] == parts[..end][1..] && parts[1..][end - 1..] == parts[end..];
      assert Glue(parts[..end], c) == parts[0] + [c] + Glue(parts[..end][1..], c);
    }
  }

  /** A dot in an event type comes after some of its segments. */
  lemma DotAfterSegments(front: string, rest: string) returns (end: nat)
    ensures var parts := Split(front + ['.'] + rest, '.');
            0 < end < |parts| && Glue(parts[..end], '.') == front
  {
    SplitGlued(front, '.', rest);
    GlueOfSplit(front, '.');
    end := |Split(front, '.')|;
    assert (Split(front, '.') + Split(rest, '.'))[..end] == Split(front, '.');
  }

  /** A pattern matches an event exactly when it is the event's own type, `*`, or what comes before one of the
      type's dots, followed by `.*`. */
  lemma MatchesMeans(eventType: string, pattern: string)
    ensures Matches(eventType, pattern) <==>
              pattern == eventType || pattern == "*" ||
              exists front, rest :: eventType == front + ['.'] + rest && pattern == front + ".*"
  {
    hide Split, Glue;
    if PrefixPattern(eventType, pattern) {
      var parts := Split(eventType, '.');
      var end :| 0 < end < |parts| && pattern == Glue(parts[..end], '.') + ".*";
      GlueOfSplit(eventType, '.');
      GluedFront(parts, end, '.');
    }
    if front, rest :| eventType == front + ['.'] + rest && pattern == front + ".*" {
      var end := DotAfterSegments(front, rest);
    }
  }

  lemma FirstSegment(head: string, rest: string)
    requires '.' !in head
    ensures Split(head, '.')[0] == head
    ensures Split(head + "." + rest, '.')[0] == head
  {
    SplitWithout(head, '.');
    SplitGlued(head, '.', rest);
  }

  /** A name is its first segment, alone or before a dot. */
  lemma SegmentForm(s: string) returns (rest: string)
    ensures var head := Split(s, '.')[0];
            '.' !in head && (s == head || s == head + "." + rest)
  {
    var parts := Split(s, '.');
    GlueOfSplit(s, '.');
    rest := if |parts| == 1 then "" else Glue(parts[1..], '.');
  }

  /** The trigger's predicate and the application's rule are the same rule. */
  lemma RestrictedIsOpsAudience(pattern: string)
    ensures Restricted(pattern) <==> EventAudience(pattern) == Ops
  {
    hide Split;
    var head := Split(pattern, '.')[0];
    var rest := SegmentForm(pattern);
    if StartsWith(pattern, "ops.") {
      assert pattern == "ops" + "." + pattern[4..];
      FirstSegment("ops", pattern[4..]);
    }
    if StartsWith(pattern, "dispute.") {
      assert pattern == "dispute" + "." + pattern[8..];
      FirstSegment("dispute", pattern[8..]);
    }
    FirstSegment("ops", "");
    FirstSegment("dispute", "");
    assert "ops" + "." == "ops." && "dispute" + "." == "dispute.";
  }

  lemma PrefixPatternNamespace(eventType: string, pattern: string)
    requires PrefixPattern(eventType, pattern)
    ensures Split(pattern, '.')[0] == Split(eventType, '.')[0]
  {
    var segments := Split(eventType, '.');
    var end :| 0 < end < |segments| && pattern == Glue(segments[..end], '.') + ".*";
    var head, front := segments[0], segments[..end];
    if end == 1 {
      assert pattern == head + "." + "*";
      FirstSegment(head, "*");
    } else {
      assert Glue(front, '.') == head + ['.'] + Glue(front[1..], '.');
      assert pattern == head + "." + (Glue(front[1..], '.') + ".*");
      FirstSegment(head, Glue(front[1..], '.') + ".*");
    }
  }

  /** The restricted predicate is exact: a pattern is restricted exactly when some event it matches is
      an `ops` or `dispute` event. */
  lemma RestrictedIsComplete(pattern: string)
    ensures Restricted(pattern) <==> exists e :: EventAudience(e) == Ops && Matches(e, pattern)
  {
    RestrictedIsOpsAudience(pattern);
    if Restricted(pattern) {
      assert Matches(pattern, pattern);
    }
    if e :| EventAudience(e) == Ops && Matches(e, pattern) {
      if PrefixPattern(e, pattern) {
        PrefixPatternNamespace(e, pattern);
        if e == "*" {
          SplitWithout("*", '.');
        }
      }
    }
  }

  /** Operators' and disputants' events: `ops`, `dispute`, and everything under either. */
  predicate IsPrivate(eventType: string) {
    eventType == "ops" || "ops." <= eventType || eventType == "dispute" || "dispute." <= eventType
  }

  lemma PrivateIsRestricted(eventType: string)
    ensures Restricted(eventType) <==> eventType == "*" || IsPrivate(eventType)
    ensures EventAudience(eventType) == Ops <==> eventType == "*" || IsPrivate(eventType)
  {
    hide Split;
    RestrictedIsOpsAudience(eventType);
  }

  // ---- the tables and their guards ------------------------------------------------------------

  datatype Tables = Tables(channels: map<int, Audience>, routes: map<int, Route>)

  datatype Change =
    | InsertChannel(id: int, audience: Audience)
    | UpdateChannel(id: int, audience: Audience)
    | DeleteChannel(id: int)
    | InsertRoute(routeId: int, route: Route)
    | UpdateRoute(routeId: int, route: Route)
    | DeleteRoute(routeId: int)

  /** What a change does to the tables when no trigger objects: keys are unique, rows must exist, a
      route's channel must exist, and deleting a channel deletes its routes. */
  function Apply(t: Tables, c: Change): Option<Tables> {
    match c
    case InsertChannel(id, audience) =>
      if id in t.channels then None else Some(t.(channels := t.channels[id := audience]))
    case UpdateChannel(id, audience) =>
      if id !in t.channels then None else Some(t.(channels := t.channels[id := audience]))
    case DeleteChannel(id) =>
      if id !in t.channels then None
      else Some(Tables(t.channels - {id}, map r | r in t.routes && t.routes[r].channel != id :: t.routes[r]))
    case InsertRoute(routeId, route) =>
      if routeId in t.routes || route.channel !in t.channels then None
      else Some(t.(routes := t.routes[routeId := route]))
    case UpdateRoute(routeId, route) =>
      if routeId !in t.routes || route.channel !in t.channels then None
      else Some(t.(routes := t.routes[routeId := route]))
    case DeleteRoute(routeId) =>
      if routeId !in t.routes then None else Some(t.(routes := t.routes - {routeId}))
  }

  predicate CarriesRestricted(t: Tables, channel: int) {
    exists r :: r in t.routes && t.routes[r].channel == channel && Restricted(t.routes[r].eventType)
  }

  /** `channel_routes_audience_guard`: refuses a restricted route on a public channel. */
  predicate RouteGuardRefuses(t: Tables, route: Route) {
    route.channel in t.channels && t.channels[route.channel] == Public && Restricted(route.eventType)
  }

  /** `delivery_channels_audience_guard`: refuses to make public a channel that carries one. */
  predicate ChannelGuardRefuses(t: Tables, id: int, audience: Audience) {
    id in t.channels && audience == Public && t.channels[id] != Public && CarriesRestricted(t, id)
  }

  predicate Refused(t: Tables, c: Change) {
    match c
    case InsertRoute(_, route) => RouteGuardRefuses(t, route)
    case UpdateRoute(routeId, route) => routeId in t.routes && RouteGuardRefuses(t, route)
    case UpdateChannel(id, audience) => ChannelGuardRefuses(t, id, audience)
    case _ => false
  }

  /** One statement against the guarded tables: it takes effect as a whole or not at all. */
  function Step(t: Tables, c: Change): Tables {
    if Refused(t, c) || Apply(t, c).None? then t else Apply(t, c).value
  }

  function Run(t: Tables, cs: seq<Change>): Tables {
    if cs == [] then t else Step(Run(t, cs[..|cs| - 1]), cs[|cs| - 1])
  }

  /** The backfill: a channel that carries a restricted route becomes an ops channel. */
  function Backfilled(t: Tables): Tables {
    t.(channels := map id | id in t.channels :: if CarriesRestricted(t, id) then Ops else t.channels[id])
  }

  predicate RoutesHaveChannels(t: Tables) { forall r :: r in t.routes ==> t.routes[r].channel in t.channels }

  /** No public channel carries a restricted route. */
  predicate Separated(t: Tables) {
    && RoutesHaveChannels(t)
    && forall r :: r in t.routes && Restricted(t.routes[r].eventType) ==> t.channels[t.routes[r].channel] == Ops
  }

  /** The migration establishes the separation whatever was configured before, changes no route, and
      relabels only channels that carry a restricted route. */
  lemma BackfillSeparates(t: Tables)
    requires RoutesHaveChannels(t)
    ensures Separated(Backfilled(t)) && Backfilled(t).routes == t.routes
    ensures forall id :: id in t.channels && Backfilled(t).channels[id] != t.channels[id] ==> CarriesRestricted(t, id)
  {
    forall r | r in t.routes && Restricted(t.routes[r].eventType)
      ensures Backfilled(t).channels[t.routes[r].channel] == Ops
    {
      assert CarriesRestricted(t, t.routes[r].channel);
    }
  }

  /** The guards are exact: on separated tables they refuse a change exactly when carrying it out would
      put a restricted route on a public channel. */
  lemma GuardsAreExact(t: Tables, c: Change)
    requires Separated(t) && Apply(t, c).Some?
    ensures Refused(t, c) <==> !Separated(Apply(t, c).value)
    ensures Separated(Step(t, c))
  {
    var u := Apply(t, c).value;
    match c
    case UpdateChannel(id, audience) =>
      if Refused(t, c) {
        var r :| r in t.routes && t.routes[r].channel == id && Restricted(t.routes[r].eventType);
        assert u.channels[u.routes[r].channel] == Public;
      } else {
        forall r | r in u.routes && Restricted(u.routes[r].eventType) ensures u.channels[u.routes[r].channel] == Ops {
          assert t.channels[t.routes[r].channel] == Ops;
        }
      }
    case InsertRoute(routeId, route) =>
      if Refused(t, c) {
        assert u.routes[routeId] == route;
      }
    case UpdateRoute(routeId, route) =>
      if Refused(t, c) {
        assert u.routes[routeId] == route;
      }
    case InsertChannel(_, _) =>
    case DeleteChannel(_) =>
    case DeleteRoute(_) =>
  }

  /** Over every run of inserts, updates and deletes after the migration, no public channel carries a
      restricted route. */
  lemma {:induction false} RunsStaySeparated(t: Tables, cs: seq<Change>)
    requires RoutesHaveChannels(t)
    ensures Separated(Run(Backfilled(t), cs))
  {
    BackfillSeparates(t);
    if cs == [] {
    } else {
      RunsStaySeparated(t, cs[..|cs| - 1]);
      var before := Run(Backfilled(t), cs[..|cs| - 1]);
      if Apply(before, cs[|cs| - 1]).Some? {
        GuardsAreExact(before, cs[|cs| - 1]);
      }
    }
  }

  /** The guards refuse no more than they must: putting a route takes effect exactly when its id is free, or
      taken for an update, its channel exists, and the channel is an ops channel or the pattern neither `*`
      nor one for private events. */
  lemma RouteTakesEffect(t: Tables, routeId: int, route: Route, isInsert: bool)
    ensures var after := Step(t, if isInsert then InsertRoute(routeId, route) else UpdateRoute(routeId, route));
            after == (if (routeId in t.routes) != isInsert && route.channel in t.channels &&
                         (t.channels[route.channel] == Ops || (route.eventType != "*" && !IsPrivate(route.eventType)))
                      then t.(routes := t.routes[routeId := route]) else t)
  {
    hide Restricted, IsPrivate;
    PrivateIsRestricted(route.eventType);
  }

  /** A channel goes with its own routes and no other. */
  lemma ChannelGoes(t: Tables, id: int)
    ensures var after := Step(t, DeleteChannel(id));
            && (forall c :: c in after.channels <==> c in t.channels && c != id)
            && (forall c :: c in after.channels ==> after.channels[c] == t.channels[c])
            && (id in t.channels ==>
                  forall r :: r in after.routes <==> r in t.routes && t.routes[r].channel != id)
            && (id !in t.channels ==> after == t)
            && (forall r :: r in after.routes ==> after.routes[r] == t.routes[r])
  {
  }

  /** So a private event never reaches a public channel: every route it matches, in every reachable state,
      belongs to an ops channel. */
  lemma NoRestrictedEventReachesPublic(t: Tables, cs: seq<Change>, event: string, r: int)
    requires RoutesHaveChannels(t) && IsPrivate(event)
    requires r in Run(Backfilled(t), cs).routes && Matches(event, Run(Backfilled(t), cs).routes[r].eventType)
    ensures var now := Run(Backfilled(t), cs);
            now.routes[r].channel in now.channels && now.channels[now.routes[r].channel] == Ops
  {
    PrivateIsRestricted(event);
    RunsStaySeparated(t, cs);
    RestrictedIsComplete(Run(Backfilled(t), cs).routes[r].eventType);
  }

  // ---- the code ------------------------------------------------------------------------------------

  /** The two tables as the database holds them, each statement guarded by its row trigger. */
  class Database {
    var channels: map<int, Audience>
    var routes: map<int, Route>

    function State(): Tables
      reads this
    {
      Tables(channels, routes)
    }

    /** Every channel is public until the backfill has looked at its routes. */
    constructor Migrate(ids: set<int>, existing: map<int, Route>)
      requires forall r :: r in existing ==> existing[r].channel in ids
      ensures State() == Backfilled(Tables(map id | id in ids :: Public, existing))
      ensures Separated(State())
    {
      channels := map id | id in ids :: Public;
      routes := existing;
      new;
      BackfillSeparates(State());
      channels := map id | id in channels ::
        if CarriesRestricted(Tables(channels, routes), id) then Ops else channels[id];
    }

    method PutRoute(routeId: int, route: Route, isInsert: bool) returns (ok: bool)
      modifies this`routes
      ensures var c := if isInsert then InsertRoute(routeId, route) else UpdateRoute(routeId, route);
              State() == Step(old(State()), c) && (ok <==> !Refused(old(State()), c) && Apply(old(State()), c).Some?)
      ensures old(Separated(State())) ==> Separated(State())
    {
      ghost var c := if isInsert then InsertRoute(routeId, route) else UpdateRoute(routeId, route);
      if Apply(State(), c).Some? && Separated(State()) {
        GuardsAreExact(State(), c);
      }
      if (routeId in routes) == isInsert {
        return false;
      }
      var known := route.channel in channels;
      if known && channels[route.channel] == Public && Restricted(route.eventType) {
        return false;
      }
      if !known {
        return false;
      }
      routes := routes[routeId := route];
      return true;
    }

    method SetAudience(id: int, audience: Audience) returns (ok: bool)
      modifies this`channels
      ensures var c := UpdateChannel(id, audience);
              State() == Step(old(State()), c) && (ok <==> !Refused(old(State()), c) && Apply(old(State()), c).Some?)
      ensures old(Separated(State())) ==> Separated(State())
    {
      ghost var c := UpdateChannel(id, audience);
      if Apply(State(), c).Some? && Separated(State()) {
        GuardsAreExact(State(), c);
      }
      if id !in channels {
        return false;
      }
      if audience == Public && channels[id] != Public {
        var restricted := set r | r in routes && routes[r].channel == id && Restricted(routes[r].eventType);
        if |restricted| > 0 {
          var r := SomeMember(restricted);
          return false;
        }
        assert forall r :: r in routes && routes[r].channel == id && Restricted(routes[r].eventType) ==>
                 r in restricted;
      }
      channels := channels[id := audience];
      return true;
    }
  }
}
