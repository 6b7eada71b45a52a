/**
 Durable consumer names, and which subscriber consumes which registered subject.
 */
module Subjects {
  import opened Strings

  function ReplaceChar(c: char): string {
    match c
    case '.' => "-"
    case '*' => "wild"
    case '>' => "all"
    case _ => [c]
  }

  /** The three replacements of strings.NewReplacer, applied to every character. */
  function Slug(subject: string): string {
    if subject == "" then "" else ReplaceChar(subject[0]) + Slug(subject[1..])
  }

  function DurableNameFor(appSlug: string, subject: string): string {
    appSlug + "-" + Slug(subject)
  }

  predicate Special(c: char) {
    c == '-' || c == '.' || c == '*' || c == '>'
  }

  predicate Literal(t: string) {
    (forall c | c in t :: !Special(c)) && t != "wild" && t != "all"
  }

  predicate Token(t: string) {
    t == "*" || t == ">" || Literal(t)
  }

  /** Subjects that are lists of wildcards and literals; a literal is none of the words a wildcard turns into. */
  predicate InGrammar(subject: string) {
    forall t | t in Split(subject, '.') :: Token(t)
  }

  function Encode(t: string): string {
    if t == "*" then "wild" else if t == ">" then "all" else t
  }

  function Decode(t: string): string {
    if t == "wild" then "*" else if t == "all" then ">" else t
  }

  function EncodeAll(tokens: seq<string>): (r: seq<string>)
    ensures |r| == |tokens| && forall k | 0 <= k < |r| :: r[k] == Encode(tokens[k])
  {
    seq(|tokens|, k requires 0 <= k < |tokens| => Encode(tokens[k]))
  }

  function DecodeAll(tokens: seq<string>): (r: seq<string>)
    ensures |r| == |tokens| && forall k | 0 <= k < |r| :: r[k] == Decode(tokens[k])
  {
    seq(|tokens|, k requires 0 <= k < |tokens| => Decode(tokens[k]))
  }

  lemma {:induction false} SlugAppend(a: string, b: string)
    ensures Slug(a + b) == Slug(a) + Slug(b)
    decreases |a|
  {
    if a == "" {
      assert a + b == b;
    } else {
      assert (a + b)[1..] == a[1..] + b;
      SlugAppend(a[1..], b);
    }
  }

  lemma {:induction false} SlugLiteral(t: string)
    requires forall c | c in t :: !Special(c)
    ensures Slug(t) == t
    decreases |t|
  {
    if t != "" {
      assert t[0] in t;
      SlugLiteral(t[1..]);
    }
  }

  lemma SlugToken(t: string)
    requires Token(t)
    ensures Slug(t) == Encode(t) && '-' !in Encode(t)
  {
    if t == "*" || t == ">" {
      assert Slug(t) == ReplaceChar(t[0]) + Slug("");
    } else {
      SlugLiteral(t);
    }
  }

  /** Dots and hyphens both become hyphens. */
  lemma SlugSeparated(t: string, sep: char, rest: string)
    requires sep == '.' || sep == '-'
    ensures Slug(t + [sep] + rest) == Slug(t) + ['-'] + Slug(rest)
  {
    assert [sep][1..] == "" && Slug([sep]) == ReplaceChar(sep) + Slug("");
    assert Slug([sep]) == ['-'];
    SlugAppend(t + [sep], rest);
    SlugAppend(t, [sep]);
  }

  /** The slug of a subject of the grammar is its tokens, each replaced on its own, joined by hyphens. */
  lemma {:induction false} SlugOfTokens(tokens: seq<string>)
    requires tokens != [] && forall t | t in tokens :: Token(t)
    ensures Slug(Join(tokens, '.')) == Join(EncodeAll(tokens), '-')
    ensures Clean(EncodeAll(tokens), '-')
    decreases |tokens|
  {
    SlugToken(tokens[0]);
    if |tokens| > 1 {
      SlugOfTokens(tokens[1..]);
      SlugSeparated(tokens[0], '.', Join(tokens[1..], '.'));
      assert EncodeAll(tokens) == [Encode(tokens[0])] + EncodeAll(tokens[1..]);
      JoinCons(Encode(tokens[0]), EncodeAll(tokens[1..]), '-');
    }
  }

  lemma EncodeInjective(a: seq<string>, b: seq<string>)
    requires forall t | t in a :: Token(t)
    requires forall t | t in b :: Token(t)
    requires EncodeAll(a) == EncodeAll(b)
    ensures a == b
  {
    forall k | 0 <= k < |a| ensures a[k] == b[k] {
      assert Token(a[k]) && Token(b[k]);
      assert EncodeAll(a)[k] == EncodeAll(b)[k];
    }
  }

  /** On the grammar, and for one app, distinct subjects have distinct durable names. */
  lemma DurableNameInjective(appSlug: string, a: string, b: string)
    requires InGrammar(a) && InGrammar(b)
    requires DurableNameFor(appSlug, a) == DurableNameFor(appSlug, b)
    ensures a == b
  {
    assert Slug(a) == DurableNameFor(appSlug, a)[|appSlug| + 1..];
    assert Slug(b) == DurableNameFor(appSlug, b)[|appSlug| + 1..];
    SlugOfTokens(Split(a, '.'));
    SlugOfTokens(Split(b, '.'));
    JoinInjective(EncodeAll(Split(a, '.')), EncodeAll(Split(b, '.')), '-');
    EncodeInjective(Split(a, '.'), Split(b, '.'));
  }

  lemma {:induction false} SlugHasNoSpecials(s: string)
    ensures '.' !in Slug(s) && '*' !in Slug(s) && '>' !in Slug(s)
    decreases |s|
  {
    if s != "" {
      SlugHasNoSpecials(s[1..]);
    }
  }

  lemma {:induction false} CharsOfTokens(tokens: seq<string>, sep: char, t: string, c: char)
    requires tokens != [] && t in tokens && c in t
    ensures c in Join(tokens, sep)
    decreases |tokens|
  {
    if |tokens| > 1 && t != tokens[0] {
      CharsOfTokens(tokens[1..], sep, t, c);
    }
  }

  lemma DecodePart(part: string)
    requires forall c | c in part :: !Special(c)
    ensures Token(Decode(part)) && Encode(Decode(part)) == part && '.' !in Decode(part)
  {
    assert part != "" ==> part[0] in part;
  }

  /** The subject of the grammar that has the same durable name as s. */
  function Canonical(s: string): string {
    Join(DecodeAll(Split(Slug(s), '-')), '.')
  }

  /**
   The grammar cannot be enlarged: the name of any subject is also the name of a subject of the grammar, so every
   subject outside it collides with one inside it.
   */
  lemma GrammarIsMaximal(appSlug: string, s: string)
    ensures InGrammar(Canonical(s))
    ensures DurableNameFor(appSlug, Canonical(s)) == DurableNameFor(appSlug, s)
    ensures !InGrammar(s) ==> Canonical(s) != s
  {
    var parts := Split(Slug(s), '-');
    var tokens := DecodeAll(parts);
    SlugHasNoSpecials(s);
    forall k | 0 <= k < |parts| ensures Token(tokens[k]) && Encode(tokens[k]) == parts[k] && '.' !in tokens[k] {
      assert parts[k] in parts;
      forall c | c in parts[k] ensures !Special(c) {
        CharsOfTokens(parts, '-', parts[k], c);
      }
      DecodePart(parts[k]);
    }
    assert EncodeAll(tokens) == parts;
    SplitJoin(tokens, '.');
    SlugOfTokens(tokens);
  }

  /** What is left of tokens when they are split again, at hyphens. */
  function Pieces(tokens: seq<string>): seq<string> {
    if tokens == [] then [] else Split(tokens[0], '-') + Pieces(tokens[1..])
  }

  /** The wildcards in a text spelled out as words. */
  function Spell(t: string): string {
    if t == "" then ""
    else (if t[0] == '*' then "wild" else if t[0] == '>' then "all" else [t[0]]) + Spell(t[1..])
  }

  function SpellAll(pieces: seq<string>): (r: seq<string>)
    ensures |r| == |pieces| && forall k | 0 <= k < |r| :: r[k] == Spell(pieces[k])
  {
    seq(|pieces|, k requires 0 <= k < |pieces| => Spell(pieces[k]))
  }

  lemma {:induction false} SlugPiece(t: string)
    requires '.' !in t && '-' !in t
    ensures Slug(t) == Spell(t) && '-' !in Spell(t)
    decreases |t|
  {
    if t != "" {
      assert t[0] in t;
      SlugPiece(t[1..]);
    }
  }

  lemma {:induction false} SlugPieces(pieces: seq<string>)
    requires pieces != [] && forall t | t in pieces :: '.' !in t && '-' !in t
    ensures Slug(Join(pieces, '-')) == Join(SpellAll(pieces), '-')
    ensures Clean(SpellAll(pieces), '-')
    decreases |pieces|
  {
    SlugPiece(pieces[0]);
    if |pieces| > 1 {
      SlugPieces(pieces[1..]);
      SlugSeparated(pieces[0], '-', Join(pieces[1..], '-'));
      assert SpellAll(pieces) == [Spell(pieces[0])] + SpellAll(pieces[1..]);
      JoinCons(Spell(pieces[0]), SpellAll(pieces[1..]), '-');
    }
  }

  lemma SlugSplit(t: string)
    requires '.' !in t
    ensures Slug(t) == Join(SpellAll(Split(t, '-')), '-') && Clean(SpellAll(Split(t, '-')), '-')
  {
    var pieces := Split(t, '-');
    forall piece | piece in pieces ensures '.' !in piece && '-' !in piece {
      if '.' in piece {
        CharsOfTokens(pieces, '-', piece, '.');
      }
    }
    SlugPieces(pieces);
  }

  /** A slug is the pieces of its subject, the wildcards in them spelled out, joined by hyphens. */
  lemma {:induction false} SlugOfPieces(tokens: seq<string>)
    requires tokens != [] && Clean(tokens, '.')
    ensures Pieces(tokens) != [] && Clean(SpellAll(Pieces(tokens)), '-')
    ensures Slug(Join(tokens, '.')) == Join(SpellAll(Pieces(tokens)), '-')
    decreases |tokens|
  {
    SlugSplit(tokens[0]);
    var first, rest := SpellAll(Split(tokens[0], '-')), SpellAll(Pieces(tokens[1..]));
    assert SpellAll(Pieces(tokens)) == first + rest;
    if |tokens| == 1 {
      assert first + rest == first;
    } else {
      SlugOfPieces(tokens[1..]);
      SlugSeparated(tokens[0], '.', Join(tokens[1..], '.'));
      JoinAppend(first, rest, '-');
    }
  }

  /** Two subjects collide, for one app, iff they have the same pieces once their wildcards are spelled out. */
  lemma CollisionIff(appSlug: string, a: string, b: string)
    ensures DurableNameFor(appSlug, a) == DurableNameFor(appSlug, b) <==>
              SpellAll(Pieces(Split(a, '.'))) == SpellAll(Pieces(Split(b, '.')))
  {
    SlugOfPieces(Split(a, '.'));
    SlugOfPieces(Split(b, '.'));
    if DurableNameFor(appSlug, a) == DurableNameFor(appSlug, b) {
      assert Slug(a) == DurableNameFor(appSlug, a)[|appSlug| + 1..];
      assert Slug(b) == DurableNameFor(appSlug, b)[|appSlug| + 1..];
      JoinInjective(SpellAll(Pieces(Split(a, '.'))), SpellAll(Pieces(Split(b, '.'))), '-');
    }
  }

  // ---------------------------------------------------------------------------------------------------------------
  // The two subscribers
  // ---------------------------------------------------------------------------------------------------------------

  /** A durable consumer: the registered subject it was made for, the subject it filters on, and its name. */
  datatype Consumer = Consumer(registered: string, filter: string, durable: string)

  predicate IsQueue(subject: string) {
    "queues." <= subject
  }

  function QueueConsumers(appSlug: string, prefix: string, subjects: seq<string>): seq<Consumer> {
    if subjects == [] then []
    else
      var n := |subjects| - 1;
      QueueConsumers(appSlug, prefix, subjects[..n])
        + if IsQueue(subjects[n])
          then [Consumer(subjects[n], prefix + "." + subjects[n], DurableNameFor(appSlug, subjects[n]))] else []
  }

  function EventConsumers(appSlug: string, subjects: seq<string>): seq<Consumer> {
    if subjects == [] then []
    else
      var n := |subjects| - 1;
      EventConsumers(appSlug, subjects[..n])
        + if IsQueue(subjects[n]) then []
          else [Consumer(subjects[n], subjects[n], DurableNameFor(appSlug, subjects[n]))]
  }

  predicate Distinct(subjects: seq<string>) {
    forall j, k | 0 <= j < k < |subjects| :: subjects[j] != subjects[k]
  }

  /** The number of consumers made for a registered subject. */
  function MadeFor(cs: seq<Consumer>, s: string): nat {
    if cs == [] then 0
    else MadeFor(cs[..|cs| - 1], s) + if cs[|cs| - 1].registered == s then 1 else 0
  }

  lemma MadeOne(a: seq<Consumer>, c: Consumer, s: string)
    ensures MadeFor(a + [c], s) == MadeFor(a, s) + if c.registered == s then 1 else 0
  {
    assert (a + [c])[..|a|] == a;
  }

  lemma {:induction false} MadeAppend(a: seq<Consumer>, b: seq<Consumer>, s: string)
    ensures MadeFor(a + b, s) == MadeFor(a, s) + MadeFor(b, s)
    decreases |b|
  {
    if b == [] {
      assert a + b == a;
    } else {
      assert a + b == (a + b[..|b| - 1]) + [b[|b| - 1]];
      MadeOne(a + b[..|b| - 1], b[|b| - 1], s);
      MadeAppend(a, b[..|b| - 1], s);
    }
  }

  /** The queue subscriber makes the consumer of a subject under "queues.", and of no other. */
  lemma {:induction false} OneQueueConsumer(appSlug: string, prefix: string, subjects: seq<string>, s: string)
    requires Distinct(subjects)
    ensures MadeFor(QueueConsumers(appSlug, prefix, subjects), s) == if s in subjects && IsQueue(s) then 1 else 0
    decreases |subjects|
  {
    if subjects != [] {
      var n := |subjects| - 1;
      var last := subjects[n];
      assert s in subjects <==> s in subjects[..n] || s == last;
      assert s == last ==> s !in subjects[..n];
      OneQueueConsumer(appSlug, prefix, subjects[..n], s);
      assert QueueConsumers(appSlug, prefix, subjects[..n]) + [] == QueueConsumers(appSlug, prefix, subjects[..n]);
      MadeOne(QueueConsumers(appSlug, prefix, subjects[..n]),
              Consumer(last, prefix + "." + last, DurableNameFor(appSlug, last)), s);
    }
  }

  /** The event subscriber makes all the others. */
  lemma {:induction false} OneEventConsumer(appSlug: string, subjects: seq<string>, s: string)
    requires Distinct(subjects)
    ensures MadeFor(EventConsumers(appSlug, subjects), s) == if s in subjects && !IsQueue(s) then 1 else 0
    decreases |subjects|
  {
    if subjects != [] {
      var n := |subjects| - 1;
      var last := subjects[n];
      assert s in subjects <==> s in subjects[..n] || s == last;
      assert s == last ==> s !in subjects[..n];
      OneEventConsumer(appSlug, subjects[..n], s);
      assert EventConsumers(appSlug, subjects[..n]) + [] == EventConsumers(appSlug, subjects[..n]);
      MadeOne(EventConsumers(appSlug, subjects[..n]), Consumer(last, last, DurableNameFor(appSlug, last)), s);
    }
  }

  predicate ForQueue(appSlug: string, prefix: string, subjects: seq<string>, c: Consumer) {
    && c.registered in subjects && IsQueue(c.registered)
    && c.filter == prefix + "." + c.registered && c.durable == DurableNameFor(appSlug, c.registered)
  }

  predicate ForEvent(appSlug: string, subjects: seq<string>, c: Consumer) {
    && c.registered in subjects && !IsQueue(c.registered)
    && c.filter == c.registered && c.durable == DurableNameFor(appSlug, c.registered)
  }

  lemma {:induction false} ConsumersAreNamed(appSlug: string, prefix: string, subjects: seq<string>)
    ensures forall c | c in QueueConsumers(appSlug, prefix, subjects) :: ForQueue(appSlug, prefix, subjects, c)
    ensures forall c | c in EventConsumers(appSlug, subjects) :: ForEvent(appSlug, subjects, c)
    decreases |subjects|
  {
    if subjects != [] {
      var n := |subjects| - 1;
      assert forall s | s in subjects[..n] :: s in subjects;
      ConsumersAreNamed(appSlug, prefix, subjects[..n]);
    }
  }

  /** A consumer's name, spelled out, and the subject it filters on: queues get the stream's prefix, events do not. */
  ghost predicate Named(appSlug: string, prefix: string, c: Consumer) {
    && c.durable == appSlug + "-" + Join(SpellAll(Pieces(Split(c.registered, '.'))), '-')
    && c.filter == if "queues." <= c.registered then prefix + "." + c.registered else c.registered
  }

  /**
   Every registered subject has exactly one consumer across both subscribers, there are no others, and no two consumers
   of subjects of the grammar share a durable name.
   */
  lemma ExactlyOneConsumer(appSlug: string, prefix: string, subjects: seq<string>)
    requires Distinct(subjects)
    ensures var cs := QueueConsumers(appSlug, prefix, subjects) + EventConsumers(appSlug, subjects);
            && (forall s | s in subjects :: MadeFor(cs, s) == 1)
            && (forall c | c in cs :: c.registered in subjects && Named(appSlug, prefix, c))
            && (forall c, d | c in cs && d in cs && InGrammar(c.registered) && InGrammar(d.registered)
                  && c.durable == d.durable :: c.registered == d.registered)
  {
    var cs := QueueConsumers(appSlug, prefix, subjects) + EventConsumers(appSlug, subjects);
    forall s | s in subjects ensures MadeFor(cs, s) == 1 {
      OneQueueConsumer(appSlug, prefix, subjects, s);
      OneEventConsumer(appSlug, subjects, s);
      MadeAppend(QueueConsumers(appSlug, prefix, subjects), EventConsumers(appSlug, subjects), s);
    }
    ConsumersAreNamed(appSlug, prefix, subjects);
    forall c | c in cs ensures c.registered in subjects && Named(appSlug, prefix, c) {
      SlugOfPieces(Split(c.registered, '.'));
    }
    forall c, d | c in cs && d in cs && InGrammar(c.registered) && InGrammar(d.registered) && c.durable == d.durable
      ensures c.registered == d.registered
    {
      DurableNameInjective(appSlug, c.registered, d.registered);
    }
  }
}
