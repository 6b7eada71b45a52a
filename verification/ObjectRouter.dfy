/**
 Routing of object-storage events: an exact registration wins, else the first matching "<category>:*" in whatever order
 the runtime iterates over the map.
 */
module ObjectRouter {
  import opened Wrappers

  predicate HasSuffix(s: string, suffix: string) {
    |suffix| <= |s| && s[|s| - |suffix|..] == suffix
  }

  function TrimSuffix(s: string, suffix: string): string {
    if HasSuffix(s, suffix) then s[..|s| - |suffix|] else s
  }

  predicate MatchesPattern(pattern: string, eventName: string) {
    HasSuffix(pattern, ":*") && TrimSuffix(pattern, ":*") + ":" <= eventName
  }

  /** An order in which the runtime may visit the keys. */
  predicate IsOrder(order: seq<string>, keys: set<string>) {
    && (forall p :: p in order ==> p in keys)
    && (forall p | p in keys :: p in order)
    && forall j, k | 0 <= j < k < |order| :: order[j] != order[k]
  }

  /** The registration that handles an event, for a given order of visits. */
  function Pick(order: seq<string>, keys: set<string>, eventName: string): Option<string> {
    if eventName in keys then Some(eventName) else FirstMatch(order, eventName)
  }

  function FirstMatch(order: seq<string>, eventName: string): Option<string> {
    if order == [] then None
    else if MatchesPattern(order[0], eventName) then Some(order[0])
    else FirstMatch(order[1..], eventName)
  }

  predicate FirstMatchAt(order: seq<string>, eventName: string, k: nat)
    requires k < |order|
  {
    MatchesPattern(order[k], eventName) && forall j | 0 <= j < k :: !MatchesPattern(order[j], eventName)
  }

  class Router<H> {
    var routes: map<string, H>

    constructor ()
      ensures routes == map[]
    {
      routes := map[];
    }

    /** A later registration of the same name replaces the earlier one. */
    method Register(eventName: string, h: H)
      modifies this
      ensures routes == old(routes)[eventName := h]
    {
      routes := routes[eventName := h];
    }

    /** The handler that Handle calls; without one it returns nil. */
    method Handle(eventName: string, order: seq<string>) returns (h: Option<H>)
      requires IsOrder(order, routes.Keys)
      ensures h.None? <==> eventName !in routes && forall p | p in routes :: !MatchesPattern(p, eventName)
      ensures eventName in routes ==> h == Some(routes[eventName])
      ensures h.Some? ==>
                var p := Pick(order, routes.Keys, eventName); p.Some? && p.value in routes && h.value == routes[p.value]
      ensures eventName !in routes && h.Some? ==>
                exists k :: 0 <= k < |order| && FirstMatchAt(order, eventName, k)
                            && order[k] in routes && h.value == routes[order[k]]
    {
      if eventName in routes {
        return Some(routes[eventName]);
      }
      var i := 0;
      while i < |order|
        invariant 0 <= i <= |order|
        invariant FirstMatch(order[i..], eventName) == FirstMatch(order, eventName)
        invariant forall k | 0 <= k < i :: !MatchesPattern(order[k], eventName)
      {
        assert order[i] in routes.Keys && order[i..][0] == order[i];
        if MatchesPattern(order[i], eventName) {
          assert FirstMatchAt(order, eventName, i);
          return Some(routes[order[i]]);
        }
        i := i + 1;
      }
      h := None;
    }
  }

  // ---------------------------------------------------------------------------------------------------------------
  // Which wildcards match
  // ---------------------------------------------------------------------------------------------------------------

  function Colons(eventName: string): set<nat> {
    set i: nat | i < |eventName| && eventName[i] == ':'
  }

  function Matching(keys: set<string>, eventName: string): set<string> {
    set p | p in keys && MatchesPattern(p, eventName)
  }

  /** A matching wildcard is the event name cut at one of its colons, with an asterisk after it. */
  lemma MatchIsCut(pattern: string, eventName: string) returns (i: nat)
    requires MatchesPattern(pattern, eventName)
    ensures i in Colons(eventName) && pattern == eventName[..i] + ":*"
  {
    i := |pattern| - 2;
    var category := TrimSuffix(pattern, ":*");
    assert eventName[..i + 1] == category + ":";
    assert eventName[i] == (category + ":")[i];
    assert pattern == category + pattern[i..];
  }

  /** The patterns that match an event name are exactly its cuts at a colon. */
  lemma MatchesIffCut(pattern: string, eventName: string)
    ensures MatchesPattern(pattern, eventName) <==> IsCut(pattern, Colons(eventName), eventName)
  {
    if MatchesPattern(pattern, eventName) {
      var i := MatchIsCut(pattern, eventName);
    }
    if i :| i in Colons(eventName) && pattern == eventName[..i] + ":*" {
      assert pattern[|pattern| - 2..] == ":*" && pattern[..|pattern| - 2] == eventName[..i];
      assert eventName[..i] + ":" == eventName[..i + 1];
    }
  }

  ghost predicate IsCut(pattern: string, colons: set<nat>, eventName: string)
    requires colons <= Colons(eventName)
  {
    exists i :: i in colons && pattern == eventName[..i] + ":*"
  }

  lemma {:induction false} CutsAreFew(patterns: set<string>, colons: set<nat>, eventName: string)
    requires colons <= Colons(eventName) && forall p | p in patterns :: IsCut(p, colons, eventName)
    ensures |patterns| <= |colons|
    decreases patterns
  {
    if patterns != {} {
      var p :| p in patterns;
      var i :| i in colons && p == eventName[..i] + ":*";
      forall q | q in patterns - {p} ensures IsCut(q, colons - {i}, eventName) {
        var j :| j in colons && q == eventName[..j] + ":*";
        assert j in colons - {i};
      }
      CutsAreFew(patterns - {p}, colons - {i}, eventName);
    }
  }

  /** There is at most one matching wildcard for each colon of the event name. */
  lemma AtMostOnePerColon(keys: set<string>, eventName: string)
    ensures |Matching(keys, eventName)| <= |Colons(eventName)|
  {
    forall p | p in Matching(keys, eventName) ensures IsCut(p, Colons(eventName), eventName) {
      var i := MatchIsCut(p, eventName);
    }
    CutsAreFew(Matching(keys, eventName), Colons(eventName), eventName);
  }

  lemma {:induction false} FirstMatchSpec(order: seq<string>, eventName: string)
    ensures FirstMatch(order, eventName).None? <==> forall p | p in order :: !MatchesPattern(p, eventName)
    ensures var m := FirstMatch(order, eventName);
            m.Some? ==> m.value in order && MatchesPattern(m.value, eventName)
    decreases |order|
  {
    if order != [] {
      FirstMatchSpec(order[1..], eventName);
      assert forall p :: p in order <==> p == order[0] || p in order[1..];
    }
  }

  lemma {:induction false} SomeOrder(keys: set<string>) returns (order: seq<string>)
    ensures IsOrder(order, keys)
    decreases keys
  {
    order := [];
    if keys != {} {
      var p :| p in keys;
      var rest := SomeOrder(keys - {p});
      order := [p] + rest;
    }
  }

  lemma OrderFrom(keys: set<string>, p: string) returns (order: seq<string>)
    requires p in keys
    ensures IsOrder(order, keys) && order[0] == p
  {
    var rest := SomeOrder(keys - {p});
    order := [p] + rest;
  }

  lemma AtMostOneElement(s: set<string>, p: string, q: string)
    requires |s| <= 1 && p in s && q in s
    ensures p == q
  {
    var rest := s - {p};
    assert |rest| == |s| - 1;
    assert q in rest <==> q != p;
    assert rest == {};
  }

  /** The choice does not depend on the order of visits iff the name is registered or at most one wildcard matches. */
  lemma OrderIrrelevant(keys: set<string>, eventName: string)
    ensures (forall o1, o2 | IsOrder(o1, keys) && IsOrder(o2, keys) ::
               Pick(o1, keys, eventName) == Pick(o2, keys, eventName))
       <==> eventName in keys || |Matching(keys, eventName)| <= 1
  {
    if eventName !in keys {
      if |Matching(keys, eventName)| <= 1 {
        forall o1, o2 | IsOrder(o1, keys) && IsOrder(o2, keys)
          ensures Pick(o1, keys, eventName) == Pick(o2, keys, eventName)
        {
          SamePick(o1, o2, keys, eventName);
        }
      } else {
        var p :| p in Matching(keys, eventName);
        assert Matching(keys, eventName) != {p};
        var q :| q in Matching(keys, eventName) && q != p;
        var o1 := OrderFrom(keys, p);
        var o2 := OrderFrom(keys, q);
        assert Pick(o1, keys, eventName) == Some(p) && Pick(o2, keys, eventName) == Some(q);
      }
    }
  }

  lemma SamePick(o1: seq<string>, o2: seq<string>, keys: set<string>, eventName: string)
    requires IsOrder(o1, keys) && IsOrder(o2, keys) && |Matching(keys, eventName)| <= 1
    ensures FirstMatch(o1, eventName) == FirstMatch(o2, eventName)
  {
    FirstMatchSpec(o1, eventName);
    FirstMatchSpec(o2, eventName);
    var m1, m2 := FirstMatch(o1, eventName), FirstMatch(o2, eventName);
    if m1.Some? && m2.Some? {
      assert m1.value in keys && m2.value in keys;
      AtMostOneElement(Matching(keys, eventName), m1.value, m2.value);
    }
  }

  /** So it never depends on the order for a name with at most one colon, as S3 event names are. */
  lemma OneColonSuffices(keys: set<string>, eventName: string)
    requires |Colons(eventName)| <= 1
    ensures forall o1, o2 | IsOrder(o1, keys) && IsOrder(o2, keys) ::
              Pick(o1, keys, eventName) == Pick(o2, keys, eventName)
  {
    AtMostOnePerColon(keys, eventName);
    OrderIrrelevant(keys, eventName);
  }

  /** With two colons it can: "a:b:c" is matched by "a:*" and by "a:b:*". */
  lemma TwoColonsDoNot()
    ensures exists o1, o2, keys ::
              IsOrder(o1, keys) && IsOrder(o2, keys) && Pick(o1, keys, "a:b:c") != Pick(o2, keys, "a:b:c")
  {
    var keys := {"a:*", "a:b:*"};
    var o1, o2 := ["a:*", "a:b:*"], ["a:b:*", "a:*"];
    assert "a:*"[0..1] == "a" && "a:*"[1..] == ":*" && "a:b:*"[3..] == ":*" && "a:b:*"[..3] == "a:b";
    assert IsOrder(o1, keys) && IsOrder(o2, keys);
    assert MatchesPattern("a:*", "a:b:c") && MatchesPattern("a:b:*", "a:b:c");
    assert Pick(o1, keys, "a:b:c") == Some("a:*") && Pick(o2, keys, "a:b:c") == Some("a:b:*");
  }
}
