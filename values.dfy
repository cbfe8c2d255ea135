/** Ruby objects as the Haile client handles them: call arguments, option
    hashes, query parameters and the JSON that the remote service returns.
    A Ruby Hash keeps its insertion order, so it is a sequence of entries. */
module RubyValues {

  datatype Option<+T> = None | Some(value: T)

  /** A Hash key as this client uses them: a Symbol (`:task_id`, `:body`)
      or a String (`'instances'`, the keys of parsed JSON). */
  datatype Key = SymKey(name: string) | StrKey(name: string)

  datatype Value =
    | Nil
    | Bool(b: bool)
    | Int(i: int)
    | Str(s: string)
    | Sym(name: string)
    | Array(items: seq<Value>)
    | Hash(entries: seq<(Key, Value)>)

  /** The entries of a Ruby Hash, in insertion order. */
  type Entries = seq<(Key, Value)>

  /** Ruby truthiness: only `nil` and `false` are false. */
  predicate Truthy(v: Value) {
    !v.Nil? && v != Bool(false)
  }

  function DigitChar(d: nat): char
    requires d < 10
  {
    "0123456789"[d]
  }

  function NatToS(n: nat): (s: string)
    ensures |s| > 0
    ensures forall i :: 0 <= i < |s| ==> '0' <= s[i] <= '9'
  {
    if n < 10 then [DigitChar(n)] else NatToS(n / 10) + [DigitChar(n % 10)]
  }

  /** `Integer#to_s` in base 10. */
  function IntToS(i: int): string {
    if i < 0 then "-" + NatToS(-i) else NatToS(i)
  }

  /** `"#{k}"` for a Hash key. */
  function KeyToS(k: Key): string {
    k.name
  }

  /** `Symbol#inspect` and `String#inspect` for a Hash key. */
  function InspectKey(k: Key): string {
    match k
    case SymKey(n) => ":" + n
    case StrKey(n) => "\"" + n + "\""
  }

  /** `inspect`, as `Array#to_s` and `Hash#to_s` use it (Ruby before 3.4). */
  function Inspect(v: Value): string
    decreases v
  {
    match v
    case Nil => "nil"
    case Bool(b) => if b then "true" else "false"
    case Int(i) => IntToS(i)
    case Str(s) => "\"" + s + "\""
    case Sym(n) => ":" + n
    case Array(items) => "[" + InspectItems(items) + "]"
    case Hash(entries) => "{" + InspectEntries(entries) + "}"
  }

  function InspectItems(items: seq<Value>): string
    decreases items
  {
    if items == [] then ""
    else if |items| == 1 then Inspect(items[0])
    else Inspect(items[0]) + ", " + InspectItems(items[1..])
  }

  function InspectEntries(entries: Entries): string
    decreases entries
  {
    if entries == [] then ""
    else
      assert entries[0].1 < entries[0];
      var e := InspectKey(entries[0].0) + "=>" + Inspect(entries[0].1);
      if |entries| == 1 then e else e + ", " + InspectEntries(entries[1..])
  }

  /** `to_s`, which string interpolation `"#{v}"` applies. */
  function ToS(v: Value): string {
    match v
    case Nil => ""
    case Str(s) => s
    case Sym(n) => n
    case _ => Inspect(v)
  }

  /** `pat` occurs in `s` at position `i`. */
  predicate OccursAt(s: string, pat: string, i: nat) {
    i + |pat| <= |s| && s[i..i + |pat|] == pat
  }

  /** `s.index(pat)`: where `pat` first occurs in `s`. */
  function IndexOfSubstring(s: string, pat: string): (r: Option<nat>)
    ensures r.Some? ==> OccursAt(s, pat, r.value)
    ensures r.Some? ==> forall j :: 0 <= j < r.value ==> !OccursAt(s, pat, j)
    ensures r.None? ==> forall j :: 0 <= j <= |s| ==> !OccursAt(s, pat, j)
    decreases |s|
  {
    if |s| < |pat| then None
    else if s[..|pat|] == pat then Some(0)
    else
      assert forall j :: 1 <= j <= |s| ==> (OccursAt(s, pat, j) <==> OccursAt(s[1..], pat, j - 1)) by {
        forall j | 1 <= j <= |s| {
          OccursShift(s, pat, j);
        }
      }
      match IndexOfSubstring(s[1..], pat)
      case None => None
      case Some(i) => Some(i + 1)
  }

  /** An occurrence at `j > 0` is one at `j - 1` in the string without its first character. */
  lemma OccursShift(s: string, pat: string, j: nat)
    requires 1 <= j <= |s|
    ensures OccursAt(s, pat, j) <==> OccursAt(s[1..], pat, j - 1)
  {
    if j + |pat| <= |s| {
      var here, there := s[j..j + |pat|], s[1..][j - 1..j - 1 + |pat|];
      forall m | 0 <= m < |pat|
        ensures here[m] == there[m]
      {
        assert here[m] == s[j + m];
      }
      assert here == there;
    }
  }

  /** `s[pat] = with`: the first occurrence of `pat` replaced by `with`;
      None where Ruby raises IndexError because `pat` does not occur. */
  function ReplaceFirst(s: string, pat: string, with: string): Option<string> {
    match IndexOfSubstring(s, pat)
    case None => None
    case Some(i) => Some(s[..i] + with + s[i + |pat|..])
  }
}
