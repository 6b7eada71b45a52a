/** The string operations that subjects, event names and permissions are made of. */
module Strings {

  /** strings.Join with a one-character separator. */
  function Join(tokens: seq<string>, sep: char): string
    requires tokens != []
  {
    if |tokens| == 1 then tokens[0] else tokens[0] + [sep] + Join(tokens[1..], sep)
  }

  /** strings.Split at a one-character separator: the tokens hold no separator, and joining them gives s back. */
  function Split(s: string, sep: char): (tokens: seq<string>)
    ensures tokens != [] && Join(tokens, sep) == s
    ensures forall t | t in tokens :: sep !in t
    decreases |s|
  {
    var i := Find(s, sep);
    if i == |s| then [s]
    else
      var rest := Split(s[i + 1..], sep);
      assert ([s[..i]] + rest)[1..] == rest;
      assert s == s[..i] + [sep] + s[i + 1..];
      [s[..i]] + rest
  }

  /** The position of the first separator, or the length of s. */
  function Find(s: string, sep: char): (i: nat)
    ensures i <= |s| && sep !in s[..i] && (i < |s| ==> s[i] == sep)
  {
    if s == "" || s[0] == sep then 0
    else
      var i := Find(s[1..], sep);
      assert s[..i + 1] == [s[0]] + s[1..][..i];
      i + 1
  }

  predicate Clean(tokens: seq<string>, sep: char) {
    forall t | t in tokens :: sep !in t
  }

  lemma JoinCons(t: string, rest: seq<string>, sep: char)
    requires rest != []
    ensures Join([t] + rest, sep) == t + [sep] + Join(rest, sep)
  {
    assert ([t] + rest)[1..] == rest;
  }

  lemma {:induction false} FindAfter(a: string, x: string, sep: char)
    requires sep !in a && (x == "" || x[0] == sep)
    ensures Find(a + x, sep) == |a|
    decreases |a|
  {
    if a == "" {
      assert a + x == x;
    } else {
      assert a[0] in a && (a + x)[1..] == a[1..] + x;
      FindAfter(a[1..], x, sep);
    }
  }

  /** A text is one separator-free head, and then either nothing or a separator and the rest. */
  lemma SameHead(a: string, x: string, b: string, y: string, sep: char)
    requires sep !in a && sep !in b
    requires a + x == b + y
    requires (x == "" || x[0] == sep) && (y == "" || y[0] == sep)
    ensures a == b && x == y
  {
    FindAfter(a, x, sep);
    FindAfter(b, y, sep);
    var whole := a + x;
    assert a == whole[..|a|] && b == whole[..|b|];
    assert x == whole[|a|..] && y == whole[|b|..];
  }

  lemma SameTail(head: string, x: string, y: string)
    requires head + x == head + y
    ensures x == y
  {
    assert x == (head + x)[|head|..] && y == (head + y)[|head|..];
  }

  /** Joining separator-free tokens loses nothing. */
  lemma {:induction false} JoinInjective(a: seq<string>, b: seq<string>, sep: char)
    requires a != [] && b != [] && Clean(a, sep) && Clean(b, sep)
    requires Join(a, sep) == Join(b, sep)
    ensures a == b
    decreases |a|
  {
    var x := if |a| == 1 then "" else [sep] + Join(a[1..], sep);
    var y := if |b| == 1 then "" else [sep] + Join(b[1..], sep);
    assert Join(a, sep) == a[0] + x && Join(b, sep) == b[0] + y;
    SameHead(a[0], x, b[0], y, sep);
    if |a| > 1 {
      assert x[1..] == Join(a[1..], sep) && y[1..] == Join(b[1..], sep);
      JoinInjective(a[1..], b[1..], sep);
    }
  }

  /** Splitting inverts joining. */
  lemma SplitJoin(tokens: seq<string>, sep: char)
    requires tokens != [] && Clean(tokens, sep)
    ensures Split(Join(tokens, sep), sep) == tokens
  {
    JoinInjective(Split(Join(tokens, sep), sep), tokens, sep);
  }

  lemma {:induction false} JoinAppend(a: seq<string>, b: seq<string>, sep: char)
    requires a != [] && b != []
    ensures Join(a + b, sep) == Join(a, sep) + [sep] + Join(b, sep)
    decreases |a|
  {
    assert a + b == [a[0]] + (a[1..] + b);
    if |a| == 1 {
      assert a[1..] + b == b;
      JoinCons(a[0], b, sep);
    } else {
      JoinCons(a[0], a[1..] + b, sep);
      JoinAppend(a[1..], b, sep);
    }
  }

  lemma SplitAppend(s: string, t: string, sep: char)
    ensures Split(s + [sep] + t, sep) == Split(s, sep) + Split(t, sep)
  {
    JoinAppend(Split(s, sep), Split(t, sep), sep);
    SplitJoin(Split(s, sep) + Split(t, sep), sep);
  }

  function Elements(list: seq<string>): set<string> {
    set s | s in list
  }

  /** strings.TrimPrefix */
  function TrimPrefix(s: string, prefix: string): string {
    if prefix <= s then s[|prefix|..] else s
  }

  lemma TrimWhole(prefix: string, s: string)
    ensures TrimPrefix(prefix + s, prefix) == s
  {
  }
}
