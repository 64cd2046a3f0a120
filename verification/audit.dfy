/** The audit record: events hash-chained onto an anchor of everything else in it. The hash and the encodings
    are parameters; what is asked of them is stated in `Sound`. */
module Audit {
  import opened Text

  datatype Option<T> = None | Some(value: T)

  /** An object, its values as their JSON text. */
  type Object = map<string, string>

  /** The hash of a text, and the text of an object. */
  datatype Codec = Codec(hash: string -> string, json: Object -> string)

  function Zero(): (r: string)
    ensures |r| == 64 && forall i :: 0 <= i < 64 ==> r[i] == '0'
  {
    seq(64, _ => '0')
  }

  /** Hashes do not collide, are never the zero string and are not written with a bar or a brace; the text of
      an object is its own, and begins with a brace. */
  ghost predicate Sound(c: Codec) {
    && (forall x, y :: c.hash(x) == c.hash(y) ==> x == y)
    && (forall x :: c.hash(x) != Zero() && c.hash(x) != "" && c.hash(x)[0] != '{' && '|' !in c.hash(x))
    && (forall p, q :: c.json(p) == c.json(q) ==> p == q)
    && (forall p :: c.json(p) != "" && c.json(p)[0] == '{')
  }

  datatype Event = Event(payload: Object, number: int, prev: string, hash: string)

  /** `fields` is everything but the genesis, the events, the head and the signature. */
  datatype Manifest = Manifest(fields: Object, genesis: Option<string>, events: seq<Event>, head: string)

  function Anchor(c: Codec, m: Manifest): string {
    c.hash(c.json(m.fields))
  }

  function Preimage(head: string, i: nat, payload: string): string {
    head + ['|'] + (Digits(i) + ['|'] + payload)
  }

  /** Where the chain stands after the events. */
  function HeadAfter(first: string, events: seq<Event>): string {
    if events == [] then first else events[|events| - 1].hash
  }

  /** Every event is numbered, follows the one before it, and has the hash of its own data. */
  ghost predicate Linked(c: Codec, first: string, events: seq<Event>) {
    events == [] ||
      var n := |events| - 1;
      && Linked(c, first, events[..n]) && events[n].number == n && events[n].prev == HeadAfter(first, events[..n])
      && events[n].hash == c.hash(Preimage(events[n].prev, n, c.json(events[n].payload)))
  }

  function First(m: Manifest): string {
    if m.genesis.Some? then m.genesis.value else Zero()
  }

  ghost predicate Verifies(c: Codec, version: string, m: Manifest) {
    && "manifest" in m.fields && m.fields["manifest"] == version
    && (m.genesis.Some? ==> m.genesis.value == Anchor(c, m))
    && Linked(c, First(m), m.events) && m.head == HeadAfter(First(m), m.events)
  }

  // ---- writing and checking ----------------------------------------------------------------------------------

  /** Chains the entries onto a starting hash. */
  method Chain(c: Codec, entries: seq<Object>, genesis: string) returns (events: seq<Event>, head: string)
    ensures |events| == |entries| && (forall i :: 0 <= i < |events| ==> events[i].payload == entries[i])
    ensures Linked(c, genesis, events) && head == HeadAfter(genesis, events)
  {
    hide Preimage;
    events, head := [], genesis;
    for i := 0 to |entries|
      invariant |events| == i && (forall k :: 0 <= k < i ==> events[k].payload == entries[k])
      invariant Linked(c, genesis, events) && head == HeadAfter(genesis, events)
    {
      var hash := c.hash(Preimage(head, i, c.json(entries[i])));
      LinkedOne(c, genesis, events, Event(entries[i], i, head, hash));
      events := events + [Event(entries[i], i, head, hash)];
      head := hash;
    }
  }

  /** A record built from a run: its fields, anchored, and its events. */
  method BuildManifest(c: Codec, version: string, fields: Object, entries: seq<Object>)
    returns (m: Manifest)
    requires "manifest" in fields && fields["manifest"] == version
    ensures Verifies(c, version, m) && m.fields == fields && m.genesis.Some?
    ensures |m.events| == |entries| && forall i :: 0 <= i < |entries| ==> m.events[i].payload == entries[i]
  {
    var genesis := c.hash(c.json(fields));
    var events, head := Chain(c, entries, genesis);
    m := Manifest(fields, Some(genesis), events, head);
  }

  datatype Problem = Unreadable | AlteredOutside | Misnumbered(i: nat) | DoesNotFollow(i: nat) | Altered(i: nat) | WrongHead

  /** Rederives every hash; every problem is reported, and there is none exactly when the record verifies. */
  method VerifyManifest(c: Codec, version: string, m: Manifest) returns (ok: bool, problems: seq<Problem>)
    ensures ok <==> problems == []
    ensures ok <==> Verifies(c, version, m)
  {
    hide Preimage;
    problems := [];
    if "manifest" !in m.fields || m.fields["manifest"] != version { return false, [Unreadable]; }
    if m.genesis.Some? && m.genesis.value != Anchor(c, m) { problems := problems + [AlteredOutside]; }
    var head := First(m);
    for i := 0 to |m.events|
      invariant head == HeadAfter(First(m), m.events[..i])
      invariant problems == [] <==> (m.genesis.Some? ==> m.genesis.value == Anchor(c, m)) && Linked(c, First(m), m.events[..i])
    {
      var e := m.events[i];
      assert m.events[..i + 1] == m.events[..i] + [e];
      ghost var before := problems;
      if e.number != i { problems := problems + [Misnumbered(i)]; }
      if e.prev != head { problems := problems + [DoesNotFollow(i)]; }
      var expected := c.hash(Preimage(head, i, c.json(e.payload)));
      if e.hash != expected { problems := problems + [Altered(i)]; }
      LinkedOne(c, First(m), m.events[..i], e);
      head := e.hash;
    }
    assert m.events[..|m.events|] == m.events;
    if head != m.head { problems := problems + [WrongHead]; }
    ok := |problems| == 0;
  }

  lemma LinkedOne(c: Codec, first: string, events: seq<Event>, e: Event)
    ensures Linked(c, first, events + [e]) <==>
      && Linked(c, first, events) && e.number == |events| && e.prev == HeadAfter(first, events)
      && e.hash == c.hash(Preimage(HeadAfter(first, events), |events|, c.json(e.payload)))
  {
    hide Preimage;
    assert (events + [e])[..|events|] == events;
  }

  // ---- what the head binds -----------------------------------------------------------------------------------------

  /** A chain can start only at the zero string or at an anchor. */
  ghost predicate Base(c: Codec, first: string) {
    first == Zero() || exists body :: body != "" && body[0] == '{' && first == c.hash(body)
  }

  lemma VerifiedBase(c: Codec, version: string, m: Manifest)
    requires Sound(c) && Verifies(c, version, m)
    ensures Base(c, First(m))
  {
    assert First(m) != Zero() ==> First(m) == c.hash(c.json(m.fields));
  }

  /** No bar and no opening brace, so that a link's text is cut one way only and is no record's text. */
  lemma {:induction false} HeadsAreHashes(c: Codec, first: string, events: seq<Event>)
    requires Sound(c) && Base(c, first) && Linked(c, first, events)
    ensures var h := HeadAfter(first, events); h != "" && h[0] != '{' && '|' !in h
  {
    hide Preimage;
    if events == [] {
      assert Zero()[0] == '0';
      assert '|' !in Zero() by { forall i | 0 <= i < 64 ensures Zero()[i] != '|' { } }
      if first != Zero() {
        var body :| body != "" && body[0] == '{' && first == c.hash(body);
      }
    } else {
      var e := events[|events| - 1];
      assert e.hash == c.hash(Preimage(e.prev, |events| - 1, c.json(e.payload)));
    }
  }

  lemma LinkedFront(c: Codec, first: string, events: seq<Event>)
    requires Linked(c, first, events) && events != []
    ensures var n := |events| - 1;
      && Linked(c, first, events[..n]) && events[n].prev == HeadAfter(first, events[..n]) && events[n].number == n
      && events[n].hash == c.hash(Preimage(events[n].prev, n, c.json(events[n].payload)))
  {
    hide Preimage;
  }

  lemma PreimageUnique(h: string, i: nat, p: string, h': string, i': nat, p': string)
    requires '|' !in h && '|' !in h' && Preimage(h, i, p) == Preimage(h', i', p')
    ensures h == h' && i == i' && p == p'
  {
    var rest, rest' := Digits(i) + ['|'] + p, Digits(i') + ['|'] + p';
    assert h + ['|'] + rest == h' + ['|'] + rest';
    SplitUnique(h, rest, '|', h', rest');
    NoBar(i);
    NoBar(i');
    SplitUnique(Digits(i), p, '|', Digits(i'), p');
    DigitsInjective(i, i');
  }

  lemma NoBar(i: nat)
    ensures '|' !in Digits(i)
  {
    forall k | 0 <= k < |Digits(i)| ensures Digits(i)[k] != '|' { assert IsDigit(Digits(i)[k]); }
  }

  /** A link is not where another chain starts. */
  lemma LinkIsNoBase(c: Codec, first: string, h: string, i: nat, p: string)
    requires Sound(c) && Base(c, first) && h != "" && h[0] != '{'
    ensures first != c.hash(Preimage(h, i, p))
  {
    assert Preimage(h, i, p)[0] == h[0];
  }

  /** One head has one chain behind it: the same events from the same start, however many there are. */
  lemma {:induction false} OneChain(c: Codec, f: string, a: seq<Event>, g: string, b: seq<Event>)
    requires Sound(c) && Base(c, f) && Base(c, g) && Linked(c, f, a) && Linked(c, g, b)
    requires HeadAfter(f, a) == HeadAfter(g, b)
    ensures f == g && a == b
    decreases |a|
  {
    hide Sound, Base, Linked, Preimage;
    if a != [] {
      LinkedFront(c, f, a);
      HeadsAreHashes(c, f, a[..|a| - 1]);
    }
    if b != [] {
      LinkedFront(c, g, b);
      HeadsAreHashes(c, g, b[..|b| - 1]);
    }
    if a == [] && b != [] {
      var e := b[|b| - 1];
      LinkIsNoBase(c, f, e.prev, |b| - 1, c.json(e.payload));
    } else if a != [] && b == [] {
      var e := a[|a| - 1];
      LinkIsNoBase(c, g, e.prev, |a| - 1, c.json(e.payload));
    } else if a != [] {
      var m, n := |a| - 1, |b| - 1;
      SameHash(c, Preimage(a[m].prev, m, c.json(a[m].payload)), Preimage(b[n].prev, n, c.json(b[n].payload)));
      PreimageUnique(a[m].prev, m, c.json(a[m].payload), b[n].prev, n, c.json(b[n].payload));
      SamePayload(c, a[m].payload, b[n].payload);
      OneChain(c, f, a[..m], g, b[..n]);
      assert a == a[..m] + [a[m]] && b == b[..n] + [b[n]];
    }
  }

  lemma SameHash(c: Codec, x: string, y: string)
    requires Sound(c) && c.hash(x) == c.hash(y)
    ensures x == y
  {
  }

  lemma SamePayload(c: Codec, p: Object, q: Object)
    requires Sound(c) && c.json(p) == c.json(q)
    ensures p == q
  {
  }

  /** Two records that verify with one head have the same events; and if either is anchored, both are and
      everything outside the chain is the same too. */
  lemma HeadBinds(c: Codec, version: string, m: Manifest, m': Manifest)
    requires Sound(c) && Verifies(c, version, m) && Verifies(c, version, m') && m.head == m'.head
    ensures m.events == m'.events
    ensures m.genesis.Some? || m'.genesis.Some? ==> m == m'
  {
    hide Linked, Preimage;
    VerifiedBase(c, version, m);
    VerifiedBase(c, version, m');
    OneChain(c, First(m), m.events, First(m'), m'.events);
    if m.genesis.Some? || m'.genesis.Some? {
      AnchorIsNotZero(c, m);
      AnchorIsNotZero(c, m');
      SameHash(c, c.json(m.fields), c.json(m'.fields));
      SamePayload(c, m.fields, m'.fields);
    }
  }

  lemma AnchorIsNotZero(c: Codec, m: Manifest)
    requires Sound(c)
    ensures Anchor(c, m) != Zero()
  {
  }

  /** Without an anchor nothing outside the chain is bound: any fields verify in place of any others. */
  lemma UnanchoredFieldsAreFree(c: Codec, version: string, m: Manifest, fields: Object)
    requires Verifies(c, version, m) && m.genesis.None? && "manifest" in fields && fields["manifest"] == version
    ensures Verifies(c, version, m.(fields := fields))
  {
    hide Linked;
  }

  // ---- such a hash and such a text can be had ----------------------------------------------------------------------

  /** A text that says where it ends, whatever follows it. */
  function Delimited(s: string): string {
    if s == "" then "0" else ['1', s[0]] + Delimited(s[1..])
  }

  lemma {:induction false} DelimitedOnce(a: string, x: string, b: string, y: string)
    requires Delimited(a) + x == Delimited(b) + y
    ensures a == b && x == y
    decreases |a|
  {
    var s, t := Delimited(a) + x, Delimited(b) + y;
    assert s[0] == (if a == "" then '0' else '1') && t[0] == (if b == "" then '0' else '1');
    if a == "" {
      assert s[1..] == x && t[1..] == y;
    } else {
      assert s[1] == a[0] && t[1] == b[0];
      assert s[2..] == Delimited(a[1..]) + x && t[2..] == Delimited(b[1..]) + y;
      DelimitedOnce(a[1..], x, b[1..], y);
      assert a == [a[0]] + a[1..] && b == [b[0]] + b[1..];
    }
  }

  /** Every key and value, one after another. */
  ghost function Listing(p: Object): string {
    if p == map[] then "" else
      var k :| k in p;
      Delimited(k) + (Delimited(p[k]) + Listing(p - {k}))
  }

  lemma {:induction false} ListingOnce(p: Object, q: Object)
    requires Listing(p) == Listing(q)
    ensures p == q
    decreases |p|
  {
    if p == map[] {
      if q != map[] { NotNothing(q); }
    } else {
      NotNothing(p);
      assert q != map[];
      var k, rest := Listed(p);
      var l, more := Listed(q);
      DelimitedOnce(k, Delimited(p[k]) + Listing(rest), l, Delimited(q[l]) + Listing(more));
      DelimitedOnce(p[k], Listing(rest), q[l], Listing(more));
      ListingOnce(rest, more);
      assert p == rest[k := p[k]] && q == more[l := q[l]];
    }
  }

  lemma Listed(p: Object) returns (k: string, rest: Object)
    requires p != map[]
    ensures k in p && rest == p - {k} && |rest| < |p|
    ensures Listing(p) == Delimited(k) + (Delimited(p[k]) + Listing(rest))
  {
    k :| k in p && Listing(p) == Delimited(k) + (Delimited(p[k]) + Listing(p - {k}));
    rest := p - {k};
  }

  lemma NotNothing(p: Object)
    requires p != map[]
    ensures Listing(p) != ""
  {
    var k, rest := Listed(p);
    assert Delimited(k) != "";
  }

  /** Every character after a mark, a bar under another. */
  function Marked(s: string): string {
    if s == "" then "" else (if s[0] == '|' then "b-" else ['a', s[0]]) + Marked(s[1..])
  }

  lemma {:induction false} MarkedOnce(s: string, t: string)
    requires Marked(s) == Marked(t)
    ensures s == t
    decreases |s|
  {
    if s == "" {
      assert t == "";
    } else {
      assert t != "";
      var x, y := Marked(s), Marked(t);
      assert x[0] == (if s[0] == '|' then 'b' else 'a') && y[0] == (if t[0] == '|' then 'b' else 'a');
      assert x[1] == (if s[0] == '|' then '-' else s[0]) && y[1] == (if t[0] == '|' then '-' else t[0]);
      assert x[2..] == Marked(s[1..]) && y[2..] == Marked(t[1..]);
      MarkedOnce(s[1..], t[1..]);
      assert s == [s[0]] + s[1..] && t == [t[0]] + t[1..];
    }
  }

  lemma {:induction false} MarkedNoBar(s: string)
    ensures '|' !in Marked(s)
  {
    if s != "" { MarkedNoBar(s[1..]); }
  }

  ghost function Hash(s: string): string {
    "h" + Marked(s)
  }

  ghost function Record(p: Object): string {
    "{" + Listing(p)
  }

  lemma HashOnce(s: string, t: string)
    ensures Hash(s) == Hash(t) ==> s == t
    ensures Hash(s) != Zero() && Hash(s) != "" && Hash(s)[0] != '{' && '|' !in Hash(s)
  {
    MarkedNoBar(s);
    assert Hash(s)[1..] == Marked(s) && Hash(t)[1..] == Marked(t);
    assert Hash(s)[0] == 'h' && Zero()[0] == '0';
    if Hash(s) == Hash(t) { MarkedOnce(s, t); }
  }

  lemma RecordOnce(p: Object, q: Object)
    ensures Record(p) == Record(q) ==> p == q
    ensures Record(p) != "" && Record(p)[0] == '{'
  {
    assert Record(p)[1..] == Listing(p) && Record(q)[1..] == Listing(q);
    if Record(p) == Record(q) { ListingOnce(p, q); }
  }

  /** What is asked of the hash and of the text of objects can be met, so the theorems above are about
      something. */
  lemma SoundExists()
    ensures exists c: Codec :: Sound(c)
  {
    var c := Codec(s => Hash(s), p => Record(p));
    forall x, y | c.hash(x) == c.hash(y) ensures x == y { HashOnce(x, y); }
    forall x ensures c.hash(x) != Zero() && c.hash(x) != "" && c.hash(x)[0] != '{' && '|' !in c.hash(x) { HashOnce(x, x); }
    forall p, q | c.json(p) == c.json(q) ensures p == q { RecordOnce(p, q); }
    forall p ensures c.json(p) != "" && c.json(p)[0] == '{' { RecordOnce(p, p); }
    assert Sound(c);
  }
}
