/** Query-string assembly as `Haile::Client#query_params` does it: drop the
    entries whose value is `nil`, render each remaining entry as `k=v`, join
    them with `&`, then apply `URI.escape` to the whole string.

    `URI.escape` replaces each unsafe character by its percent-encoding and
    leaves the others alone; which characters are unsafe is not modelled, so
    the per-character replacement `escChar` is a parameter. */
module QueryParams {
  import opened RubyValues
  import opened RubyHash

  /** The block of `hash.select { |k, v| !v.nil? }`. */
  predicate NonNil(e: (Key, Value)) {
    !e.1.Nil?
  }

  /** `hash.select { |k, v| !v.nil? }` */
  function Compact(h: Entries): Entries {
    Select(h, NonNil)
  }

  /** The compacted hash holds exactly the non-nil entries, in their order. */
  lemma CompactContents(h: Entries)
    ensures forall e :: e in Compact(h) <==> e in h && !e.1.Nil?
    ensures Subsequence(Compact(h), h)
  {
    SelectContents(h, NonNil);
  }

  /** `"#{k}=#{v}"` */
  function Pair(e: (Key, Value)): string {
    KeyToS(e.0) + "=" + ToS(e.1)
  }

  /** `hash.map { |k, v| "#{k}=#{v}" }` */
  function Pairs(h: Entries): (ps: seq<string>)
    ensures |ps| == |h|
    ensures forall i :: 0 <= i < |h| ==> ps[i] == Pair(h[i])
  {
    if h == [] then [] else [Pair(h[0])] + Pairs(h[1..])
  }

  /** `parts.join(sep)` */
  function Join(parts: seq<string>, sep: char): string {
    if parts == [] then ""
    else if |parts| == 1 then parts[0]
    else parts[0] + [sep] + Join(parts[1..], sep)
  }

  /** The string `query_params` hands to `URI.escape`. */
  function QueryString(h: Entries): string {
    Join(Pairs(Compact(h)), '&')
  }

  /** `URI.escape(s)`: each character replaced by `escChar` of it. */
  function Escape(s: string, escChar: char -> string): string {
    if s == [] then "" else escChar(s[0]) + Escape(s[1..], escChar)
  }

  /** `query_params(hash)` */
  function Query(h: Entries, escChar: char -> string): string {
    Escape(QueryString(h), escChar)
  }

  /** Escaping works character by character, so it distributes over concatenation. */
  lemma {:induction false} EscapeAppend(a: string, b: string, escChar: char -> string)
    ensures Escape(a + b, escChar) == Escape(a, escChar) + Escape(b, escChar)
  {
    if a != [] {
      assert (a + b)[1..] == a[1..] + b;
      EscapeAppend(a[1..], b, escChar);
    } else {
      assert a + b == b;
    }
  }

  /** A string of characters `URI.escape` leaves alone comes back unchanged. */
  lemma {:induction false} EscapeSafe(s: string, escChar: char -> string)
    requires forall i :: 0 <= i < |s| ==> escChar(s[i]) == [s[i]]
    ensures Escape(s, escChar) == s
  {
    if s != [] {
      EscapeSafe(s[1..], escChar);
    }
  }

  // ---------------------------------------------------------------------
  // Reading a query string back: the partner of `QueryString`.

  /** Split `s` at every `sep`; always at least one part. */
  function Split(s: string, sep: char): (parts: seq<string>)
    ensures |parts| >= 1
  {
    if s == [] then [[]]
    else
      var rest := Split(s[1..], sep);
      if s[0] == sep then [[]] + rest else [[s[0]] + rest[0]] + rest[1..]
  }

  /** Split `s` at its first `=` into key and value. */
  function Cut(s: string): (string, string) {
    if s == [] then ([], [])
    else if s[0] == '=' then ([], s[1..])
    else
      var kv := Cut(s[1..]);
      ([s[0]] + kv.0, kv.1)
  }

  function CutAll(parts: seq<string>): seq<(string, string)> {
    if parts == [] then [] else [Cut(parts[0])] + CutAll(parts[1..])
  }

  /** The `(key, value)` pairs a query string lists. */
  function ParseQuery(s: string): seq<(string, string)> {
    if s == [] then [] else CutAll(Split(s, '&'))
  }

  /** The non-nil entries of a hash, rendered with `to_s`, in insertion order. */
  function Rendered(h: Entries): seq<(string, string)> {
    if h == [] then []
    else if h[0].1.Nil? then Rendered(h[1..])
    else [(KeyToS(h[0].0), ToS(h[0].1))] + Rendered(h[1..])
  }

  /** An entry that reads back unambiguously: no `&` or `=` in its key, no `&` in its value. */
  predicate Plain(e: (Key, Value)) {
    '&' !in KeyToS(e.0) && '=' !in KeyToS(e.0) && '&' !in ToS(e.1)
  }

  lemma {:induction false} SplitPrefix(x: string, t: string, sep: char)
    requires sep !in x
    ensures Split(x + t, sep) == [x + Split(t, sep)[0]] + Split(t, sep)[1..]
  {
    if x != [] {
      assert (x + t)[1..] == x[1..] + t;
      SplitPrefix(x[1..], t, sep);
      assert [x[0]] + (x[1..] + Split(t, sep)[0]) == x + Split(t, sep)[0];
    } else {
      var parts := Split(t, sep);
      assert x + t == t && x + parts[0] == parts[0];
      assert [parts[0]] + parts[1..] == parts;
    }
  }

  /** Splitting a joined list of separator-free parts gives the parts back. */
  lemma {:induction false} SplitJoin(parts: seq<string>, sep: char)
    requires |parts| >= 1
    requires forall i :: 0 <= i < |parts| ==> sep !in parts[i]
    ensures Split(Join(parts, sep), sep) == parts
  {
    if |parts| == 1 {
      SplitPrefix(parts[0], [], sep);
      assert parts[0] + [] == parts[0];
    } else {
      var tail := [sep] + Join(parts[1..], sep);
      assert Join(parts, sep) == parts[0] + tail;
      SplitPrefix(parts[0], tail, sep);
      SplitJoin(parts[1..], sep);
      assert tail[1..] == Join(parts[1..], sep);
      assert parts[0] + [] == parts[0];
    }
  }

  lemma {:induction false} CutPair(k: string, v: string)
    requires '=' !in k
    ensures Cut(k + "=" + v) == (k, v)
  {
    if k != [] {
      assert (k + "=" + v)[1..] == k[1..] + "=" + v;
      CutPair(k[1..], v);
      assert [k[0]] + k[1..] == k;
    } else {
      assert k + "=" + v == ['='] + v;
      assert (['='] + v)[1..] == v;
    }
  }

  lemma {:induction false} CutAllPairs(c: Entries)
    requires forall e :: e in c ==> Plain(e) && !e.1.Nil?
    ensures CutAll(Pairs(c)) == Rendered(c)
  {
    if c != [] {
      CutPair(KeyToS(c[0].0), ToS(c[0].1));
      assert Pairs(c)[1..] == Pairs(c[1..]);
      CutAllPairs(c[1..]);
    }
  }

  lemma {:induction false} RenderedCompact(h: Entries)
    ensures Rendered(Compact(h)) == Rendered(h)
  {
    if h != [] {
      RenderedCompact(h[1..]);
      if NonNil(h[0]) {
        assert Compact(h)[1..] == Compact(h[1..]);
      }
    }
  }

  /** Reading back the query string yields every non-nil entry as `(k, v)`,
      in insertion order, and nothing else. */
  lemma QueryRoundTrip(h: Entries)
    requires forall e :: e in h && !e.1.Nil? ==> Plain(e)
    ensures ParseQuery(QueryString(h)) == Rendered(h)
  {
    var c := Compact(h);
    CompactContents(h);
    RenderedCompact(h);
    CutAllPairs(c);
    if c != [] {
      var ps := Pairs(c);
      forall i | 0 <= i < |ps|
        ensures '&' !in ps[i]
      {
        assert c[i] in c;
      }
      SplitJoin(ps, '&');
      assert '=' in ps[0];
      JoinHasPart(ps, '&');
    }
  }

  lemma {:induction false} JoinHasPart(parts: seq<string>, sep: char)
    requires |parts| >= 1
    ensures |Join(parts, sep)| >= |parts[0]|
    ensures Join(parts, sep)[..|parts[0]|] == parts[0]
  {
  }

  /** The query string is empty exactly when every value is nil. */
  lemma QueryEmpty(h: Entries, escChar: char -> string)
    ensures QueryString(h) == "" <==> forall e :: e in h ==> e.1.Nil?
    ensures (forall e :: e in h ==> e.1.Nil?) ==> Query(h, escChar) == ""
  {
    var c := Compact(h);
    CompactContents(h);
    if c != [] {
      JoinHasPart(Pairs(c), '&');
      assert '=' in Pairs(c)[0];
      assert c[0] in c;
    }
  }
}
