/** The canonical JSON text that request hashes and preview fingerprints are taken over. */
module StableJson {
  import opened Basics

  /** A value as the serializer meets it. A finite number is its own decimal text. */
  datatype Json =
    | Undefined
    | Null
    | NonFinite
    | Bool(value: bool)
    | Number(numeral: string)
    | Str(text: string)
    | Arr(items: seq<Json>)
    | Obj(entries: seq<Entry>)

  datatype Entry = Entry(key: string, value: Json)

  /** A member already serialized. */
  datatype Pair = Pair(key: string, text: string)

  type Order = (string, string) -> bool

  ghost predicate TotalOrder(before: Order) {
    && (forall k :: !before(k, k))
    && (forall j, k, l :: before(j, k) && before(k, l) ==> before(j, l))
    && (forall j, k :: j == k || before(j, k) || before(k, j))
  }

  predicate NumeralChar(c: char) {
    '0' <= c <= '9' || c == '-' || c == '+' || c == '.' || c == 'e' || c == 'E'
  }

  predicate Numeral(t: string) {
    t != "" && ('0' <= t[0] <= '9' || t[0] == '-') && forall c <- t :: NumeralChar(c)
  }

  /** Numbers carry numerals and no object names a member twice. */
  ghost predicate Sound(v: Json) {
    && (v.Number? ==> Numeral(v.numeral))
    && (v.Arr? ==> forall i :: 0 <= i < |v.items| ==> Sound(v.items[i]))
    && (v.Obj? ==> UniqueKeys(v.entries) && forall i :: 0 <= i < |v.entries| ==> Sound(v.entries[i].value))
  }

  ghost predicate UniqueKeys(entries: seq<Entry>) {
    forall i, j :: 0 <= i < j < |entries| ==> entries[i].key != entries[j].key
  }

  // ---------------------------------------------------------------------------
  // Text
  // ---------------------------------------------------------------------------

  function HexDigit(n: nat): char
    requires n < 16
  {
    "0123456789abcdef"[n]
  }

  function Escaped(c: char): string {
    if c == '"' then "\\\""
    else if c == '\\' then "\\\\"
    else if c == '\n' then "\\n"
    else if c == '\r' then "\\r"
    else if c == '\t' then "\\t"
    else if c as int == 8 then "\\b"
    else if c as int == 12 then "\\f"
    else if c < ' ' then "\\u00" + [HexDigit(c as int / 16), HexDigit(c as int % 16)]
    else [c]
  }

  function EscapedText(s: string): string {
    if s == "" then "" else Escaped(s[0]) + EscapedText(s[1..])
  }

  function Quoted(s: string): string {
    "\"" + (EscapedText(s) + "\"")
  }

  function Insert(p: Pair, sorted: seq<Pair>, before: Order): seq<Pair> {
    if sorted == [] || before(p.key, sorted[0].key) then [p] + sorted
    else [sorted[0]] + Insert(p, sorted[1..], before)
  }

  function Sorted(pairs: seq<Pair>, before: Order): seq<Pair> {
    if pairs == [] then [] else Insert(pairs[0], Sorted(pairs[1..], before), before)
  }

  /** A list of members or items up to its closing bracket. */
  function Listed(parts: seq<string>, close: char): string {
    if parts == [] then [close]
    else if |parts| == 1 then parts[0] + [close]
    else parts[0] + ("," + Listed(parts[1..], close))
  }

  function MemberTexts(pairs: seq<Pair>): seq<string> {
    seq(|pairs|, i requires 0 <= i < |pairs| => Quoted(pairs[i].key) + (":" + pairs[i].text))
  }

  /** The text of a value; undefined inside an array reads as null. */
  function Text(v: Json, before: Order): string
    decreases v
  {
    match v
    case Undefined => "null"
    case Null => "null"
    case NonFinite => "null"
    case Bool(b) => if b then "true" else "false"
    case Number(numeral) => numeral
    case Str(s) => Quoted(s)
    case Arr(items) => "[" + Listed(Texts(items, before), ']')
    case Obj(entries) => "{" + Listed(MemberTexts(Sorted(Pairs(entries, before), before)), '}')
  }

  function Texts(items: seq<Json>, before: Order): (texts: seq<string>)
    ensures |texts| == |items| && forall i :: 0 <= i < |items| ==> texts[i] == Text(items[i], before)
    decreases items
  {
    if items == [] then [] else [Text(items[0], before)] + Texts(items[1..], before)
  }

  /** The serialized members that are not undefined, in their own order. Sorting them by
      key afterwards is sorting the entries, since only the keys are compared. */
  function Pairs(entries: seq<Entry>, before: Order): seq<Pair>
    decreases entries
  {
    if entries == [] then []
    else
      (if entries[0].value.Undefined? then [] else [Pair(entries[0].key, Text(entries[0].value, before))]) +
      Pairs(entries[1..], before)
  }

  /** Serialization proper: a top-level undefined has no text. */
  function Stable(v: Json, before: Order): Option<string> {
    if v.Undefined? then None else Some(Text(v, before))
  }

  // ---------------------------------------------------------------------------
  // Equality up to key order
  // ---------------------------------------------------------------------------

  predicate ReadsNull(v: Json) {
    v.Undefined? || v.Null? || v.NonFinite?
  }

  /** Equal at every depth, whatever the order of members; undefined members do not count. */
  ghost predicate Same(a: Json, b: Json)
    decreases a
  {
    if ReadsNull(a) || ReadsNull(b) then ReadsNull(a) && ReadsNull(b)
    else if a.Arr? then
      && b.Arr? && |a.items| == |b.items|
      && forall i :: 0 <= i < |a.items| ==> Same(a.items[i], b.items[i])
    else if a.Obj? then
      && b.Obj?
      && (forall i :: 0 <= i < |a.entries| && !a.entries[i].value.Undefined? ==>
            exists j :: 0 <= j < |b.entries| && !b.entries[j].value.Undefined?
                        && b.entries[j].key == a.entries[i].key && Same(a.entries[i].value, b.entries[j].value))
      && (forall j :: 0 <= j < |b.entries| && !b.entries[j].value.Undefined? ==> Defines(a.entries, b.entries[j].key))
    else a == b
  }

  ghost predicate Defines(entries: seq<Entry>, key: string) {
    exists i :: 0 <= i < |entries| && !entries[i].value.Undefined? && entries[i].key == key
  }

  // ---------------------------------------------------------------------------
  // Sorting
  // ---------------------------------------------------------------------------

  ghost predicate StrictlySorted(pairs: seq<Pair>, before: Order) {
    forall i, j :: 0 <= i < j < |pairs| ==> before(pairs[i].key, pairs[j].key)
  }

  ghost predicate DistinctPairs(pairs: seq<Pair>) {
    forall i, j :: 0 <= i < j < |pairs| ==> pairs[i].key != pairs[j].key
  }

  lemma {:induction false} InsertSorts(p: Pair, sorted: seq<Pair>, before: Order)
    requires TotalOrder(before) && StrictlySorted(sorted, before) && forall q <- sorted :: q.key != p.key
    ensures StrictlySorted(Insert(p, sorted, before), before)
    ensures forall q :: q in Insert(p, sorted, before) <==> q == p || q in sorted
  {
    if sorted != [] && !before(p.key, sorted[0].key) {
      InsertSorts(p, sorted[1..], before);
      var rest := Insert(p, sorted[1..], before);
      forall q | q in rest ensures before(sorted[0].key, q.key) {
        if q != p {
          var k :| 0 <= k < |sorted[1..]| && sorted[1..][k] == q;
          assert sorted[k + 1] == q;
        }
      }
      assert sorted == [sorted[0]] + sorted[1..];
    }
  }

  lemma {:induction false} SortedSorts(pairs: seq<Pair>, before: Order)
    requires TotalOrder(before) && DistinctPairs(pairs)
    ensures StrictlySorted(Sorted(pairs, before), before)
    ensures forall q :: q in Sorted(pairs, before) <==> q in pairs
  {
    if pairs != [] {
      SortedSorts(pairs[1..], before);
      forall q | q in pairs[1..] ensures q.key != pairs[0].key {
        var k :| 0 <= k < |pairs[1..]| && pairs[1..][k] == q;
        assert pairs[k + 1] == q;
      }
      InsertSorts(pairs[0], Sorted(pairs[1..], before), before);
      assert pairs == [pairs[0]] + pairs[1..];
    }
  }

  lemma {:induction false} SortedListsAgree(ps: seq<Pair>, qs: seq<Pair>, before: Order)
    requires TotalOrder(before) && StrictlySorted(ps, before) && StrictlySorted(qs, before)
    requires forall p :: p in ps <==> p in qs
    ensures ps == qs
  {
    assert (ps != [] ==> ps[0] in qs) && (qs != [] ==> qs[0] in ps);
    if ps != [] {
      assert ps[0] == qs[0];
      forall p ensures p in ps[1..] <==> p in qs[1..] {
        TailMember(ps, p, before);
        TailMember(qs, p, before);
      }
      SortedListsAgree(ps[1..], qs[1..], before);
      assert ps == [ps[0]] + ps[1..] && qs == [qs[0]] + qs[1..];
    }
  }

  lemma TailMember(ps: seq<Pair>, p: Pair, before: Order)
    requires TotalOrder(before) && StrictlySorted(ps, before) && ps != []
    ensures p in ps[1..] <==> p in ps && p != ps[0]
  {
  }

  // ---------------------------------------------------------------------------
  // Serialized members
  // ---------------------------------------------------------------------------

  ghost predicate Serializes(entries: seq<Entry>, before: Order, i: int, p: Pair) {
    0 <= i < |entries| && !entries[i].value.Undefined? && p == Pair(entries[i].key, Text(entries[i].value, before))
  }

  lemma {:induction false} PairsMember(entries: seq<Entry>, before: Order, p: Pair)
    ensures p in Pairs(entries, before) <==> exists i :: Serializes(entries, before, i, p)
  {
    hide Text;
    if entries != [] {
      PairsMember(entries[1..], before, p);
      if i :| Serializes(entries[1..], before, i, p) {
        assert Serializes(entries, before, i + 1, p);
      }
      if i :| Serializes(entries, before, i, p) {
        if i > 0 { assert Serializes(entries[1..], before, i - 1, p); }
      }
      if p in Pairs(entries, before) && p !in Pairs(entries[1..], before) {
        assert Serializes(entries, before, 0, p);
      }
    }
  }

  lemma {:induction false} PairsDistinct(entries: seq<Entry>, before: Order)
    requires UniqueKeys(entries)
    ensures DistinctPairs(Pairs(entries, before))
  {
    hide Text;
    if entries != [] {
      var rest := Pairs(entries[1..], before);
      PairsDistinct(entries[1..], before);
      forall q | q in rest ensures q.key != entries[0].key {
        PairsMember(entries[1..], before, q);
        var i :| Serializes(entries[1..], before, i, q);
        assert entries[1..][i] == entries[i + 1];
      }
    }
  }

  // ---------------------------------------------------------------------------
  // Equal values have equal text
  // ---------------------------------------------------------------------------

  lemma {:induction false} SameText(a: Json, b: Json, before: Order)
    requires TotalOrder(before) && Sound(a) && Sound(b) && Same(a, b)
    ensures Text(a, before) == Text(b, before)
    decreases a
  {
    hide Sorted, Pairs, MemberTexts, Listed, Quoted, TotalOrder;
    if a.Arr? && !ReadsNull(b) {
      forall i | 0 <= i < |a.items| ensures Text(a.items[i], before) == Text(b.items[i], before) {
        SameText(a.items[i], b.items[i], before);
      }
      assert Texts(a.items, before) == Texts(b.items, before);
    } else if a.Obj? && !ReadsNull(b) {
      SameMembers(a, b, before);
    }
  }

  lemma {:induction false} SameMembers(a: Json, b: Json, before: Order)
    requires TotalOrder(before) && a.Obj? && b.Obj? && Sound(a) && Sound(b) && Same(a, b)
    ensures Sorted(Pairs(a.entries, before), before) == Sorted(Pairs(b.entries, before), before)
    decreases a, 0
  {
    hide Sorted, Pairs, Text, TotalOrder;
    var es, fs := a.entries, b.entries;
    forall p ensures p in Pairs(es, before) <==> p in Pairs(fs, before) {
      PairsMember(es, before, p);
      PairsMember(fs, before, p);
      if i :| Serializes(es, before, i, p) {
        var j := MatchOf(a, b, i);
        SameText(es[i].value, fs[j].value, before);
        assert Serializes(fs, before, j, p);
      }
      if j :| Serializes(fs, before, j, p) {
        var i := DefinedIn(a, b, j);
        var k := MatchOf(a, b, i);
        assert k == j;
        SameText(es[i].value, fs[j].value, before);
        assert Serializes(es, before, i, p);
      }
    }
    PairsDistinct(es, before);
    PairsDistinct(fs, before);
    SortedSorts(Pairs(es, before), before);
    SortedSorts(Pairs(fs, before), before);
    SortedListsAgree(Sorted(Pairs(es, before), before), Sorted(Pairs(fs, before), before), before);
  }

  lemma MatchOf(a: Json, b: Json, i: nat) returns (j: nat)
    requires a.Obj? && b.Obj? && Same(a, b) && i < |a.entries| && !a.entries[i].value.Undefined?
    ensures j < |b.entries| && !b.entries[j].value.Undefined? && b.entries[j].key == a.entries[i].key
    ensures Same(a.entries[i].value, b.entries[j].value)
  {
    j :| 0 <= j < |b.entries| && !b.entries[j].value.Undefined?
         && b.entries[j].key == a.entries[i].key && Same(a.entries[i].value, b.entries[j].value);
  }

  lemma DefinedIn(a: Json, b: Json, j: nat) returns (i: nat)
    requires a.Obj? && b.Obj? && Same(a, b) && j < |b.entries| && !b.entries[j].value.Undefined?
    ensures i < |a.entries| && !a.entries[i].value.Undefined? && a.entries[i].key == b.entries[j].key
  {
    assert Defines(a.entries, b.entries[j].key);
    i :| 0 <= i < |a.entries| && !a.entries[i].value.Undefined? && a.entries[i].key == b.entries[j].key;
  }

  // ---------------------------------------------------------------------------
  // Text can be read back in one way only
  // ---------------------------------------------------------------------------

  /** What may follow a value. */
  predicate Delimited(rest: string) {
    rest == "" || rest[0] == ',' || rest[0] == ']' || rest[0] == '}'
  }

  lemma EscapedReads(c: char, d: char, r: string, s: string)
    requires Escaped(c) + r == Escaped(d) + s
    ensures c == d && r == s
  {
    var x, y := Escaped(c), Escaped(d);
    assert x[0] == (x + r)[0] == (y + s)[0] == y[0];
    if x[0] == '\\' {
      assert x[1] == (x + r)[1] == (y + s)[1] == y[1];
      if x[1] == 'u' {
        assert x[4] == (x + r)[4] == (y + s)[4] == y[4];
        assert x[5] == (x + r)[5] == (y + s)[5] == y[5];
        HexReads(c as int / 16, d as int / 16);
        HexReads(c as int % 16, d as int % 16);
        assert c as int == d as int;
      }
    }
    assert c == d;
    assert r == (x + r)[|x|..] == (y + s)[|y|..] == s;
  }

  lemma HexReads(m: nat, n: nat)
    requires m < 16 && n < 16 && HexDigit(m) == HexDigit(n)
    ensures m == n
  {
  }

  lemma {:induction false} EscapedTextReads(s: string, t: string, r: string, u: string)
    requires EscapedText(s) + ("\"" + r) == EscapedText(t) + ("\"" + u)
    ensures s == t && r == u
  {
    hide Escaped;
    var x, y := EscapedText(s) + ("\"" + r), EscapedText(t) + ("\"" + u);
    EscapedTextStart(s, r);
    EscapedTextStart(t, u);
    if s == "" {
      assert x[1..] == r && y[1..] == u;
    } else {
      var s1, t1 := EscapedText(s[1..]) + ("\"" + r), EscapedText(t[1..]) + ("\"" + u);
      assert x == Escaped(s[0]) + s1 && y == Escaped(t[0]) + t1;
      EscapedReads(s[0], t[0], s1, t1);
      EscapedTextReads(s[1..], t[1..], r, u);
      assert s == [s[0]] + s[1..] && t == [t[0]] + t[1..];
    }
  }

  lemma EscapedTextStart(s: string, r: string)
    ensures (EscapedText(s) + ("\"" + r))[0] == '"' <==> s == ""
  {
  }

  lemma QuotedReads(s: string, t: string, r: string, u: string)
    requires Quoted(s) + r == Quoted(t) + u
    ensures s == t && r == u
  {
    hide EscapedText;
    var x, y := Quoted(s) + r, Quoted(t) + u;
    assert x[1..] == EscapedText(s) + ("\"" + r);
    assert y[1..] == EscapedText(t) + ("\"" + u);
    EscapedTextReads(s, t, r, u);
  }

  lemma {:induction false} NumeralReads(m: string, n: string, r: string, s: string)
    requires m + r == n + s && Delimited(r) && Delimited(s)
    requires (forall c <- m :: NumeralChar(c)) && (forall c <- n :: NumeralChar(c))
    ensures m == n && r == s
  {
    NumeralStart(m, r);
    NumeralStart(n, s);
    if m == "" {
      assert m + r == r && n + s == s;
    } else {
      assert (m + r)[0] == m[0] && (n + s)[0] == n[0];
      assert (m + r)[1..] == m[1..] + r && (n + s)[1..] == n[1..] + s;
      NumeralReads(m[1..], n[1..], r, s);
      assert m == [m[0]] + m[1..] && n == [n[0]] + n[1..];
    }
  }

  lemma NumeralStart(m: string, r: string)
    requires Delimited(r) && forall c <- m :: NumeralChar(c)
    ensures Delimited(m + r) <==> m == ""
  {
    if m == "" {
      assert m + r == r;
    } else {
      assert m[0] in m && (m + r)[0] == m[0];
    }
  }

  /** The first character of a text tells what kind of value it is. */
  function Kind(c: char): nat {
    if c == 'n' then 0 else if c == 't' then 1 else if c == 'f' then 2
    else if c == '"' then 4 else if c == '[' then 5 else if c == '{' then 6 else 3
  }

  function KindOf(v: Json): nat {
    if ReadsNull(v) then 0 else if v.Bool? then if v.value then 1 else 2
    else if v.Number? then 3 else if v.Str? then 4 else if v.Arr? then 5 else 6
  }

  lemma TextStart(v: Json, before: Order)
    requires Sound(v)
    ensures Text(v, before) != "" && Kind(Text(v, before)[0]) == KindOf(v)
    ensures !Delimited(Text(v, before))
  {
  }

  /** Two texts with what follows them agree only if the values are the same and the
      texts end at the same place. */
  lemma {:induction false} Reads(a: Json, b: Json, r: string, s: string, before: Order)
    requires TotalOrder(before) && Sound(a) && Sound(b) && Delimited(r) && Delimited(s)
    requires Text(a, before) + r == Text(b, before) + s
    ensures Same(a, b) && Text(a, before) == Text(b, before) && r == s
    decreases a, 1
  {
    hide Pairs, Texts, Sorted, MemberTexts, Listed, EscapedText, Sound, TotalOrder, Quoted;
    var x, y := Text(a, before), Text(b, before);
    TextStart(a, before);
    TextStart(b, before);
    assert x[0] == (x + r)[0] == (y + s)[0] == y[0];
    if a.Number? {
      assert Numeral(a.numeral) && Numeral(b.numeral) by { NumeralOf(a); NumeralOf(b); }
      NumeralReads(a.numeral, b.numeral, r, s);
    } else if a.Str? {
      QuotedReads(a.text, b.text, r, s);
    } else if a.Arr? {
      var parts, others := Texts(a.items, before), Texts(b.items, before);
      assert Listed(parts, ']') + r == (x + r)[1..] == (y + s)[1..] == Listed(others, ']') + s;
      ItemsOk(a); ItemsOk(b);
      assert |parts| == |a.items| && |others| == |b.items|;
      ReadItems(a.items, b.items, r, s, before);
    } else if a.Obj? {
      var ps, qs := Sorted(Pairs(a.entries, before), before), Sorted(Pairs(b.entries, before), before);
      assert Listed(MemberTexts(ps), '}') + r == (x + r)[1..] == (y + s)[1..] == Listed(MemberTexts(qs), '}') + s;
      SortedPairsCome(a, before);
      SortedPairsCome(b, before);
      ReadMembers(a, b, ps, qs, r, s, before);
      SamePairsSame(a, b, before);
    } else {
      assert x == y;
      assert r == (x + r)[|x|..] == (y + s)[|y|..] == s;
    }
  }

  lemma NumeralOf(v: Json)
    requires Sound(v) && v.Number?
    ensures Numeral(v.numeral)
  {
  }

  lemma ItemsOk(v: Json)
    requires Sound(v) && v.Arr?
    ensures forall i :: 0 <= i < |v.items| ==> Sound(v.items[i])
  {
  }

  lemma ListedSplits(parts: seq<string>, close: char, r: string) returns (tail: string)
    requires parts != [] && (close == ']' || close == '}')
    ensures Listed(parts, close) + r == parts[0] + tail && Delimited(tail) && tail != ""
    ensures |parts| == 1 ==> tail == [close] + r
    ensures |parts| > 1 ==> tail == "," + (Listed(parts[1..], close) + r)
  {
    tail := if |parts| == 1 then [close] + r else "," + (Listed(parts[1..], close) + r);
    assert Listed(parts, close) + r == parts[0] + tail;
  }

  lemma ListStart(parts: seq<string>, close: char, r: string)
    requires close == ']' || close == '}'
    requires forall p <- parts :: !Delimited(p)
    ensures Delimited(Listed(parts, close) + r) <==> parts == []
    ensures parts == [] ==> Listed(parts, close) + r == [close] + r
  {
    if parts != [] {
      assert parts[0] in parts && (Listed(parts, close) + r)[0] == parts[0][0];
    }
  }

  lemma ListEnds(parts: seq<string>, others: seq<string>, close: char, r: string, s: string)
    requires close == ']' || close == '}'
    requires Listed(parts, close) + r == Listed(others, close) + s
    requires forall p <- parts :: !Delimited(p)
    requires forall p <- others :: !Delimited(p)
    ensures parts == [] <==> others == []
    ensures parts == [] ==> r == s
  {
    hide Listed, Delimited;
    ListStart(parts, close, r);
    ListStart(others, close, s);
    if parts == [] {
      assert r == ([close] + r)[1..] == ([close] + s)[1..] == s;
    }
  }

  lemma {:induction false} ReadItems(items: seq<Json>, others: seq<Json>, r: string, s: string, before: Order)
    requires TotalOrder(before)
    requires forall i :: 0 <= i < |items| ==> Sound(items[i])
    requires forall i :: 0 <= i < |others| ==> Sound(others[i])
    requires Listed(Texts(items, before), ']') + r == Listed(Texts(others, before), ']') + s
    ensures |items| == |others| && r == s
    ensures forall i :: 0 <= i < |items| ==> Same(items[i], others[i]) && Text(items[i], before) == Text(others[i], before)
    decreases items
  {
    hide Sound, Listed, Text, TotalOrder, Same, Delimited;
    var parts, rest := Texts(items, before), Texts(others, before);
    forall p | p in parts ensures !Delimited(p) {
      var i :| 0 <= i < |parts| && parts[i] == p;
      TextStart(items[i], before);
    }
    forall p | p in rest ensures !Delimited(p) {
      var i :| 0 <= i < |rest| && rest[i] == p;
      TextStart(others[i], before);
    }
    ListEnds(parts, rest, ']', r, s);
    if items != [] {
      var tail := ListedSplits(parts, ']', r);
      var tail' := ListedSplits(rest, ']', s);
      Reads(items[0], others[0], tail, tail', before);
      assert tail[0] == tail'[0];
      assert tail[1..] == tail'[1..];
      if |items| > 1 {
        assert tail[1..] == Listed(Texts(items[1..], before), ']') + r;
        assert tail'[1..] == Listed(Texts(others[1..], before), ']') + s;
        ReadItems(items[1..], others[1..], r, s, before);
        forall i | 0 <= i < |items|
          ensures Same(items[i], others[i]) && Text(items[i], before) == Text(others[i], before)
        {
          if i > 0 { assert items[i] == items[1..][i - 1] && others[i] == others[1..][i - 1]; }
        }
      } else {
        assert tail[1..] == r && tail'[1..] == s;
      }
    }
  }

  /** Every member text stands for an entry of the object. */
  ghost predicate ComeFrom(v: Json, pairs: seq<Pair>, before: Order)
    requires v.Obj?
  {
    forall k :: 0 <= k < |pairs| ==> Comes(v, pairs[k], before)
  }

  ghost predicate Comes(v: Json, p: Pair, before: Order)
    requires v.Obj?
  {
    exists i :: Serializes(v.entries, before, i, p)
  }

  lemma ComeFromHead(v: Json, pairs: seq<Pair>, before: Order)
    requires v.Obj? && ComeFrom(v, pairs, before) && pairs != []
    ensures Comes(v, pairs[0], before)
  {
  }

  lemma ComeFromTail(v: Json, pairs: seq<Pair>, before: Order)
    requires v.Obj? && ComeFrom(v, pairs, before) && pairs != []
    ensures ComeFrom(v, pairs[1..], before)
  {
  }

  lemma SortedPairsCome(v: Json, before: Order)
    requires TotalOrder(before) && v.Obj? && Sound(v)
    ensures ComeFrom(v, Sorted(Pairs(v.entries, before), before), before)
    ensures forall p :: p in Sorted(Pairs(v.entries, before), before) <==> p in Pairs(v.entries, before)
  {
    hide Text, Sorted, Pairs, TotalOrder;
    var pairs := Pairs(v.entries, before);
    PairsDistinct(v.entries, before);
    SortedSorts(pairs, before);
    forall k | 0 <= k < |Sorted(pairs, before)|
      ensures Comes(v, Sorted(pairs, before)[k], before)
    {
      PairsMember(v.entries, before, Sorted(pairs, before)[k]);
    }
  }

  lemma MemberTextsStart(pairs: seq<Pair>)
    ensures forall t <- MemberTexts(pairs) :: !Delimited(t)
  {
  }

  lemma EntryOk(v: Json, before: Order, i: int, p: Pair)
    requires v.Obj? && Sound(v) && Serializes(v.entries, before, i, p)
    ensures Sound(v.entries[i].value)
  {
  }

  lemma {:induction false} ReadMembers(a: Json, b: Json, ps: seq<Pair>, qs: seq<Pair>, r: string, s: string, before: Order)
    requires TotalOrder(before) && a.Obj? && b.Obj? && Sound(a) && Sound(b)
    requires ComeFrom(a, ps, before) && ComeFrom(b, qs, before)
    requires Listed(MemberTexts(ps), '}') + r == Listed(MemberTexts(qs), '}') + s
    ensures ps == qs && r == s
    decreases a, 0, |ps|
  {
    hide Sound, Listed, Text, TotalOrder, Same, Delimited, Quoted, ComeFrom;
    var parts, others := MemberTexts(ps), MemberTexts(qs);
    MemberTextsStart(ps);
    MemberTextsStart(qs);
    ListEnds(parts, others, '}', r, s);
    if ps != [] {
      var tail := ListedSplits(parts, '}', r);
      var tail' := ListedSplits(others, '}', s);
      ComeFromHead(a, ps, before);
      ComeFromHead(b, qs, before);
      var i :| Serializes(a.entries, before, i, ps[0]);
      var j :| Serializes(b.entries, before, j, qs[0]);
      assert parts[0] + tail == Quoted(ps[0].key) + (":" + (ps[0].text + tail));
      assert others[0] + tail' == Quoted(qs[0].key) + (":" + (qs[0].text + tail'));
      QuotedReads(ps[0].key, qs[0].key, ":" + (ps[0].text + tail), ":" + (qs[0].text + tail'));
      assert ps[0].text + tail == (":" + (ps[0].text + tail))[1..] == qs[0].text + tail';
      EntryOk(a, before, i, ps[0]);
      EntryOk(b, before, j, qs[0]);
      Reads(a.entries[i].value, b.entries[j].value, tail, tail', before);
      assert tail[0] == tail'[0] && tail[1..] == tail'[1..];
      if |ps| > 1 {
        assert tail[1..] == Listed(MemberTexts(ps[1..]), '}') + r by { assert MemberTexts(ps[1..]) == parts[1..]; }
        assert tail'[1..] == Listed(MemberTexts(qs[1..]), '}') + s by { assert MemberTexts(qs[1..]) == others[1..]; }
        ComeFromTail(a, ps, before);
        ComeFromTail(b, qs, before);
        ReadMembers(a, b, ps[1..], qs[1..], r, s, before);
        assert ps == [ps[0]] + ps[1..] && qs == [qs[0]] + qs[1..];
      } else {
        assert tail[1..] == r && tail'[1..] == s;
        assert ps == [ps[0]] && qs == [qs[0]];
      }
    }
  }

  /** Objects with the same members serialized are the same. */
  lemma {:induction false} SamePairsSame(a: Json, b: Json, before: Order)
    requires TotalOrder(before) && a.Obj? && b.Obj? && Sound(a) && Sound(b)
    requires forall p :: p in Pairs(a.entries, before) <==> p in Pairs(b.entries, before)
    ensures Same(a, b)
    decreases a, 0, 0
  {
    hide Text, TotalOrder, Pairs;
    var es, fs := a.entries, b.entries;
    forall i | 0 <= i < |es| && !es[i].value.Undefined?
      ensures exists j :: 0 <= j < |fs| && !fs[j].value.Undefined? && fs[j].key == es[i].key && Same(es[i].value, fs[j].value)
    {
      var p := Pair(es[i].key, Text(es[i].value, before));
      assert Serializes(es, before, i, p);
      PairsMember(es, before, p);
      PairsMember(fs, before, p);
      var j :| Serializes(fs, before, j, p);
      Reads(es[i].value, fs[j].value, "", "", before);
    }
    forall j | 0 <= j < |fs| && !fs[j].value.Undefined? ensures Defines(es, fs[j].key) {
      var p := Pair(fs[j].key, Text(fs[j].value, before));
      assert Serializes(fs, before, j, p);
      PairsMember(fs, before, p);
      PairsMember(es, before, p);
      var i :| Serializes(es, before, i, p);
      assert es[i].key == fs[j].key;
    }
  }

  /** Two values have the same canonical text exactly when they are equal up to the order
      of members at every depth. */
  lemma StableIsCanonical(a: Json, b: Json, before: Order)
    requires TotalOrder(before) && Sound(a) && Sound(b) && !a.Undefined? && !b.Undefined?
    ensures Stable(a, before) == Stable(b, before) <==> Same(a, b)
  {
    hide Text, TotalOrder, Same, Sound;
    if Same(a, b) {
      SameText(a, b, before);
    }
    if Stable(a, before) == Stable(b, before) {
      Reads(a, b, "", "", before);
    }
  }
}
