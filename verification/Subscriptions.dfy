/**
 Subscription matching and the fan-out map (internal/domain/subscription.go,
 internal/repository/postgres/subscription.go).
 */
module Subscriptions {
  import opened Domain

  predicate MatchWildcard(pattern: string, eventType: string) {
    if |pattern| == 0 then |eventType| == 0
    else if pattern[|pattern| - 1] == '*' then
      var prefix := pattern[..|pattern| - 1];
      |eventType| >= |prefix| && eventType[..|prefix|] == prefix
    else pattern == eventType
  }

  /** The documented meaning of a filter: the type itself, or a prefix of it followed by a star. */
  ghost predicate Covers(filter: string, eventType: string) {
    filter == eventType || exists n :: 0 <= n <= |eventType| && filter == eventType[..n] + "*"
  }

  ghost predicate Wants(sub: Subscription, eventType: string) {
    exists filter <- sub.eventTypes :: Covers(filter, eventType)
  }

  /** The code's comparisons on the last character and the leading slice say exactly that. */
  lemma MatchWildcardMeans(pattern: string, eventType: string)
    ensures MatchWildcard(pattern, eventType) || pattern == "*" || pattern == eventType <==> Covers(pattern, eventType)
  {
    if |pattern| > 0 && pattern[|pattern| - 1] == '*' {
      var prefix := pattern[..|pattern| - 1];
      assert pattern == prefix + "*";
      if MatchWildcard(pattern, eventType) || pattern == "*" {
        assert pattern == eventType[..|prefix|] + "*";
      }
    }
    forall n | 0 <= n <= |eventType| && pattern == eventType[..n] + "*"
      ensures MatchWildcard(pattern, eventType)
    {
      assert pattern[..|pattern| - 1] == eventType[..n];
    }
  }

  /** The search through a subscription's filters. */
  method MatchesEventType(sub: Subscription, eventType: string) returns (matches: bool)
    ensures matches <==> Wants(sub, eventType)
  {
    for i := 0 to |sub.eventTypes|
      invariant forall j :: 0 <= j < i ==> !Covers(sub.eventTypes[j], eventType)
    {
      var t := sub.eventTypes[i];
      MatchWildcardMeans(t, eventType);
      if t == "*" || t == eventType {
        return true;
      }
      if MatchWildcard(t, eventType) {
        return true;
      }
    }
    return false;
  }

  /** The active subscriptions that want an event type, in table order, each listed `times` times. */
  ghost function Wanting(subs: seq<Subscription>, eventType: string, times: nat): seq<Subscription> {
    if subs == [] then []
    else
      var sub := subs[|subs| - 1];
      Wanting(subs[..|subs| - 1], eventType, times) +
      (if sub.active && Wants(sub, eventType) then Copies(sub, times) else [])
  }

  function Copies(sub: Subscription, times: nat): seq<Subscription> {
    if times == 0 then [] else Copies(sub, times - 1) + [sub]
  }

  /** How often an event type was asked for. */
  function Asked(eventTypes: seq<string>, t: string): nat {
    if eventTypes == [] then 0
    else Asked(eventTypes[..|eventTypes| - 1], t) + (if eventTypes[|eventTypes| - 1] == t then 1 else 0)
  }

  lemma {:induction false} AskedMeans(eventTypes: seq<string>, t: string)
    ensures Asked(eventTypes, t) > 0 <==> t in eventTypes
    ensures (forall i, j :: 0 <= i < j < |eventTypes| ==> eventTypes[i] != eventTypes[j]) ==> Asked(eventTypes, t) <= 1
  {
    if eventTypes != [] {
      AskedMeans(eventTypes[..|eventTypes| - 1], t);
    }
  }

  /** A loaded list names exactly the active subscriptions that want the type. */
  lemma {:induction false} WantingMeans(subs: seq<Subscription>, eventType: string, times: nat, sub: Subscription)
    requires times > 0
    ensures sub in Wanting(subs, eventType, times) <==> sub in subs && sub.active && Wants(sub, eventType)
  {
    if subs != [] {
      var front, last := subs[..|subs| - 1], subs[|subs| - 1];
      WantingMeans(front, eventType, times, sub);
      CopiesMeans(last, times);
      assert sub in subs <==> sub in front || sub == last by {
        assert subs == front + [last];
      }
    }
  }

  lemma {:induction false} CopiesMeans(sub: Subscription, times: nat)
    ensures |Copies(sub, times)| == times && forall s <- Copies(sub, times) :: s == sub
    ensures times > 0 ==> sub in Copies(sub, times)
  {
    if times > 0 {
      CopiesMeans(sub, times - 1);
    }
  }

  /** `after` lists the subscription once more under each type it wants, as often as the type was asked for. */
  ghost predicate Added(before: map<string, seq<Subscription>>, after: map<string, seq<Subscription>>,
                        sub: Subscription,
                        eventTypes: seq<string>) {
    && after.Keys == before.Keys
    && forall t <- before ::
         after[t] == before[t] + (if Wants(sub, t) then Copies(sub, Asked(eventTypes, t)) else [])
  }

  lemma AddedNext(before: map<string, seq<Subscription>>, after: map<string, seq<Subscription>>, sub: Subscription,
                  eventTypes: seq<string>, t: string)
    requires Added(before, after, sub, eventTypes) && t in before
    ensures Added(before, if Wants(sub, t) then after[t := after[t] + [sub]] else after, sub, eventTypes + [t])
  {
    assert (eventTypes + [t])[..|eventTypes|] == eventTypes;
  }

  /** Appends one active subscription under every event type it wants. */
  method AddUnderTypes(before: map<string, seq<Subscription>>, sub: Subscription, eventTypes: seq<string>)
    returns (result: map<string, seq<Subscription>>)
    requires forall t <- eventTypes :: t in before
    ensures Added(before, result, sub, eventTypes)
  {
    result := before;
    for j := 0 to |eventTypes|
      invariant Added(before, result, sub, eventTypes[..j])
    {
      var t := eventTypes[j];
      assert eventTypes[..j + 1] == eventTypes[..j] + [t];
      AddedNext(before, result, sub, eventTypes[..j], t);
      var matches := MatchesEventType(sub, t);
      if matches {
        result := result[t := result[t] + [sub]];
      }
    }
    assert eventTypes[..|eventTypes|] == eventTypes;
  }

  /** The fan-out map: each asked type, and no other, with the active subscriptions that want it. */
  ghost predicate Fanned(result: map<string, seq<Subscription>>, subs: seq<Subscription>, eventTypes: seq<string>) {
    && (forall t :: t in result <==> t in eventTypes)
    && forall t <- result :: result[t] == Wanting(subs, t, Asked(eventTypes, t))
  }

  lemma FannedNext(before: map<string, seq<Subscription>>, after: map<string, seq<Subscription>>,
                   subs: seq<Subscription>,
                   sub: Subscription, eventTypes: seq<string>)
    requires Fanned(before, subs, eventTypes)
    requires if sub.active then Added(before, after, sub, eventTypes) else after == before
    ensures Fanned(after, subs + [sub], eventTypes)
  {
    assert (subs + [sub])[..|subs|] == subs;
  }

  class SubscriptionRepository {
    var subs: seq<Subscription>

    constructor ()
      ensures subs == []
    {
      subs := [];
    }

    /** Loads the active subscriptions and lists them under the given event types. */
    method GetByEventTypes(eventTypes: seq<string>) returns (result: map<string, seq<Subscription>>)
      ensures Fanned(result, subs, eventTypes)
    {
      if |eventTypes| == 0 {
        return map[];
      }
      result := map t | t in eventTypes :: [];
      for i := 0 to |subs|
        invariant Fanned(result, subs[..i], eventTypes)
      {
        assert subs[..i + 1] == subs[..i] + [subs[i]];
        ghost var before := result;
        if subs[i].active {
          result := AddUnderTypes(result, subs[i], eventTypes);
        }
        FannedNext(before, result, subs[..i], subs[i], eventTypes);
      }
      assert subs[..|subs|] == subs;
    }
  }
}
