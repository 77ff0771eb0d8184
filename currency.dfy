/**
 * `core/model/currency.py`: the registry of known currencies (`Currencies`,
 * whose class-level `codes` set and `all` list are the state of one object
 * here) and the planning half of `RatesDB.ensure_rates`, which decides which
 * date ranges of which currencies still have to be fetched, in bites of at
 * most 30 days.
 */
module Currency {
  import opened Wrappers
  import opened Calendar

  /** An entry of `Currencies.all`: `(code, name, priority)`. */
  datatype Entry = Entry(code: string, name: string, priority: int)

  /** ASCII upper- and lower-casing of one character. */
  function UpperChar(c: char): char { if 'a' <= c <= 'z' then (c as int - 32) as char else c }

  function LowerChar(c: char): char { if 'A' <= c <= 'Z' then (c as int + 32) as char else c }

  /** `str.upper()`. */
  function Upper(s: string): string { seq(|s|, i requires 0 <= i < |s| => UpperChar(s[i])) }

  /** `str.lower()`. */
  function Lower(s: string): string { seq(|s|, i requires 0 <= i < |s| => LowerChar(s[i])) }

  predicate NoSpace(s: string) { forall i :: 0 <= i < |s| ==> s[i] != ' ' }

  /** The text of a line up to its first space. */
  function CodeOfLine(line: string): (r: string)
    ensures |r| <= |line| && r == line[..|r|] && NoSpace(r)
    decreases |line|
  {
    if line == [] || line[0] == ' ' then [] else [line[0]] + CodeOfLine(line[1..])
  }

  /** A code without a space, followed by text starting with a space, reads back from the line. */
  lemma {:induction false} CodeOfLineOf(code: string, rest: string)
    requires NoSpace(code) && |rest| > 0 && rest[0] == ' '
    ensures CodeOfLine(code + rest) == code
    decreases |code|
  {
    if code == [] {
      assert code + rest == rest;
    } else {
      assert (code + rest)[1..] == code[1..] + rest;
      CodeOfLineOf(code[1..], rest);
      assert [code[0]] + code[1..] == code;
    }
  }

  /** Upper-casing twice is upper-casing once, and the case a code was written in does not matter. */
  lemma UpperOfCase(s: string)
    ensures Upper(Upper(s)) == Upper(s)
    ensures Upper(Lower(s)) == Upper(s)
  {
    assert forall i :: 0 <= i < |s| ==> Upper(Upper(s))[i] == Upper(s)[i];
    assert forall i :: 0 <= i < |s| ==> Upper(Lower(s))[i] == Upper(s)[i];
  }

  /** The codes appearing in a list of entries. */
  function CodesOf(all: seq<Entry>): set<string> { set i | 0 <= i < |all| :: all[i].code }

  predicate DistinctCodes(all: seq<Entry>)
  {
    forall i, j :: 0 <= i < j < |all| ==> all[i].code != all[j].code
  }

  /** USD, EUR and CAD: the currencies that are always present. */
  const Legacy: set<string> := {"CAD", "USD", "EUR"}

  lemma CodesOfCons(e: Entry, s: seq<Entry>)
    ensures CodesOf([e] + s) == {e.code} + CodesOf(s)
    ensures DistinctCodes([e] + s) <==> DistinctCodes(s) && e.code !in CodesOf(s)
  {
    var a := [e] + s;
    assert a[0] == e;
    forall x | x in CodesOf(a) ensures x in {e.code} + CodesOf(s) {
      var i :| 0 <= i < |a| && a[i].code == x;
      if i > 0 { assert a[i] == s[i - 1]; }
    }
    forall x | x in CodesOf(s) ensures x in CodesOf(a) {
      var i :| 0 <= i < |s| && s[i].code == x;
      assert a[i + 1] == s[i];
    }
    DistinctCons(e, s);
  }

  lemma DistinctCons(e: Entry, s: seq<Entry>)
    ensures DistinctCodes([e] + s) <==> DistinctCodes(s) && e.code !in CodesOf(s)
  {
    var a := [e] + s;
    if DistinctCodes(s) && e.code !in CodesOf(s) {
      forall i, j | 0 <= i < j < |a| ensures a[i].code != a[j].code {
        assert a[j] == s[j - 1];
        if i > 0 {
          assert a[i] == s[i - 1];
        } else {
          assert a[j].code in CodesOf(s);
        }
      }
    }
    if DistinctCodes(a) {
      forall i | 0 <= i < |s| ensures s[i].code != e.code {
        assert a[i + 1] == s[i] && a[0] == e;
      }
      forall i, j | 0 <= i < j < |s| ensures s[i].code != s[j].code {
        assert a[i + 1] == s[i] && a[j + 1] == s[j];
      }
    }
  }

  lemma CodesOfAppend(all: seq<Entry>, e: Entry)
    ensures CodesOf(all + [e]) == CodesOf(all) + {e.code}
  {
    var a := all + [e];
    assert a[|all|] == e;
    assert forall i :: 0 <= i < |all| ==> a[i] == all[i];
  }

  // ---------------------------------------------------------------------------
  // Ordering by (priority, code)

  /** Python's `<=` on strings: lexicographic on code points. */
  predicate StrLe(a: string, b: string)
    decreases |a|
  {
    if |a| == 0 then true
    else if |b| == 0 then false
    else if a[0] != b[0] then a[0] < b[0]
    else StrLe(a[1..], b[1..])
  }

  lemma {:induction false} StrLeTotal(a: string, b: string)
    ensures StrLe(a, b) || StrLe(b, a)
    decreases |a|
  {
    if |a| > 0 && |b| > 0 && a[0] == b[0] {
      StrLeTotal(a[1..], b[1..]);
    }
  }

  lemma {:induction false} StrLeTransitive(a: string, b: string, c: string)
    requires StrLe(a, b) && StrLe(b, c)
    ensures StrLe(a, c)
    decreases |a|
  {
    if |a| > 0 && |b| > 0 && |c| > 0 && a[0] == b[0] && b[0] == c[0] {
      StrLeTransitive(a[1..], b[1..], c[1..]);
    }
  }

  /** The sort key of `sort_currencies`: `(priority, code)` compared as a tuple. */
  predicate KeyLe(a: Entry, b: Entry)
  {
    a.priority < b.priority || (a.priority == b.priority && StrLe(a.code, b.code))
  }

  lemma KeyLeTotal(a: Entry, b: Entry)
    ensures KeyLe(a, b) || KeyLe(b, a)
  {
    StrLeTotal(a.code, b.code);
  }

  lemma KeyLeTransitive(a: Entry, b: Entry, c: Entry)
    requires KeyLe(a, b) && KeyLe(b, c)
    ensures KeyLe(a, c)
  {
    if a.priority == b.priority && b.priority == c.priority {
      StrLeTransitive(a.code, b.code, c.code);
    }
  }

  predicate SortedByKey(s: seq<Entry>)
  {
    forall i :: 0 <= i < |s| - 1 ==> KeyLe(s[i], s[i + 1])
  }

  function Insert(e: Entry, s: seq<Entry>): seq<Entry>
  {
    if s == [] then [e]
    else if KeyLe(e, s[0]) then [e] + s
    else [s[0]] + Insert(e, s[1..])
  }

  /** `sorted(all, key=lambda t: (t[2], t[0]))`, as an insertion sort. */
  function SortEntries(s: seq<Entry>): seq<Entry>
  {
    if s == [] then [] else Insert(s[0], SortEntries(s[1..]))
  }

  /** Inserting adds exactly `e`: one more entry, and one more code, kept distinct when `e`'s code is new. */
  lemma {:induction false} InsertContents(e: Entry, s: seq<Entry>)
    ensures multiset(Insert(e, s)) == multiset(s) + multiset{e}
    ensures CodesOf(Insert(e, s)) == CodesOf(s) + {e.code}
    ensures DistinctCodes(s) && e.code !in CodesOf(s) ==> DistinctCodes(Insert(e, s))
    ensures |Insert(e, s)| == |s| + 1
    decreases |s|
  {
    if s == [] {
      assert CodesOf([e]) == {e.code} by { assert [e][0] == e; }
    } else if KeyLe(e, s[0]) {
      CodesOfCons(e, s);
    } else {
      var t := s[1..];
      assert s == [s[0]] + t;
      InsertContents(e, t);
      var rt := Insert(e, t);
      assert Insert(e, s) == [s[0]] + rt;
      CodesOfCons(s[0], t);
      CodesOfCons(s[0], rt);
    }
  }

  /** Inserting into a sorted list keeps it sorted; the new head is `e` or the old head. */
  lemma {:induction false} InsertSorted(e: Entry, s: seq<Entry>)
    requires SortedByKey(s)
    ensures SortedByKey(Insert(e, s))
    ensures |Insert(e, s)| == |s| + 1
    ensures Insert(e, s)[0] == e || (s != [] && Insert(e, s)[0] == s[0])
    decreases |s|
  {
    var r := Insert(e, s);
    if s == [] {
    } else if KeyLe(e, s[0]) {
      assert r == [e] + s;
      assert SortedByKey(r) by {
        assert forall i :: 1 <= i < |r| ==> r[i] == s[i - 1];
      }
    } else {
      var t := s[1..];
      assert SortedByKey(t) by {
        assert forall i :: 0 <= i < |t| ==> t[i] == s[i + 1];
      }
      InsertSorted(e, t);
      var rt := Insert(e, t);
      assert r == [s[0]] + rt;
      KeyLeTotal(e, s[0]);
      assert KeyLe(s[0], rt[0]) by {
        if rt[0] != e {
          assert rt[0] == t[0] == s[1];
        }
      }
      assert SortedByKey(r) by {
        forall i | 0 <= i < |r| - 1
          ensures KeyLe(r[i], r[i + 1])
        {
          if i > 0 {
            assert r[i] == rt[i - 1] && r[i + 1] == rt[i];
          }
        }
      }
    }
  }

  /** `sort_currencies` yields a list sorted by `(priority, code)` holding the same entries. */
  lemma SortEntriesProperties(s: seq<Entry>)
    ensures SortedByKey(SortEntries(s))
    ensures multiset(SortEntries(s)) == multiset(s)
    ensures CodesOf(SortEntries(s)) == CodesOf(s)
    ensures DistinctCodes(s) ==> DistinctCodes(SortEntries(s))
    ensures |SortEntries(s)| == |s|
  {
    SortEntriesSorted(s);
    SortEntriesPerm(s);
    SortEntriesCodes(s);
  }

  lemma {:induction false} SortEntriesSorted(s: seq<Entry>)
    ensures SortedByKey(SortEntries(s)) && |SortEntries(s)| == |s|
    decreases |s|
  {
    if s != [] {
      SortEntriesSorted(s[1..]);
      InsertSorted(s[0], SortEntries(s[1..]));
    }
  }

  lemma {:induction false} SortEntriesPerm(s: seq<Entry>)
    ensures multiset(SortEntries(s)) == multiset(s)
    decreases |s|
  {
    if s != [] {
      var t := s[1..];
      SortEntriesPerm(t);
      var st := SortEntries(t);
      assert multiset(Insert(s[0], st)) == multiset(st) + multiset{s[0]} by {
        InsertContents(s[0], st);
      }
      assert s == [s[0]] + t;
      assert multiset(s) == multiset{s[0]} + multiset(t);
    }
  }

  lemma {:induction false} SortEntriesCodes(s: seq<Entry>)
    ensures CodesOf(SortEntries(s)) == CodesOf(s)
    ensures DistinctCodes(s) ==> DistinctCodes(SortEntries(s))
    decreases |s|
  {
    if s != [] {
      var t := s[1..];
      SortEntriesCodes(t);
      InsertContents(s[0], SortEntries(t));
      assert s == [s[0]] + t;
      CodesOfCons(s[0], t);
    }
  }

  /** A sorted list is ordered between any two of its positions, not only neighbouring ones. */
  lemma {:induction false} SortedAllPairs(s: seq<Entry>, i: int, j: int)
    requires SortedByKey(s)
    requires 0 <= i <= j < |s|
    ensures KeyLe(s[i], s[j]) || i == j
    decreases j - i
  {
    if i < j - 1 {
      SortedAllPairs(s, i, j - 1);
      KeyLeTransitive(s[i], s[j - 1], s[j]);
    }
  }

  /** The list comprehension of `reset_currencies`: the entries whose code is in `keep`, in order. */
  function Filter(all: seq<Entry>, keep: set<string>): seq<Entry>
  {
    if all == [] then []
    else (if all[0].code in keep then [all[0]] else []) + Filter(all[1..], keep)
  }

  /** The filter keeps exactly the entries whose code is in `keep`. */
  lemma {:induction false} FilterMembers(all: seq<Entry>, keep: set<string>)
    ensures forall e :: e in Filter(all, keep) <==> e in all && e.code in keep
    decreases |all|
  {
    if all != [] {
      FilterMembers(all[1..], keep);
      assert all == [all[0]] + all[1..];
    }
  }

  lemma {:induction false} FilterCodes(all: seq<Entry>, keep: set<string>)
    ensures CodesOf(Filter(all, keep)) == CodesOf(all) * keep
    ensures DistinctCodes(all) ==> DistinctCodes(Filter(all, keep))
    decreases |all|
  {
    if all != [] {
      var t := all[1..];
      FilterCodes(t, keep);
      var ft := Filter(t, keep);
      assert all == [all[0]] + t;
      CodesOfCons(all[0], t);
      if all[0].code in keep {
        assert Filter(all, keep) == [all[0]] + ft;
        CodesOfCons(all[0], ft);
        assert CodesOf(all) * keep == {all[0].code} + CodesOf(t) * keep;
      } else {
        assert Filter(all, keep) == ft;
        assert CodesOf(all) * keep == CodesOf(t) * keep;
      }
    }
  }

  /** The position of the first entry with `code`, if any. */
  function FirstIndex(all: seq<Entry>, code: string): Option<nat>
    decreases |all|
  {
    if all == [] then None
    else if all[0].code == code then Some(0)
    else match FirstIndex(all[1..], code)
      case None => None
      case Some(k) => Some(k + 1)
  }

  lemma {:induction false} FirstIndexSpec(all: seq<Entry>, code: string)
    ensures FirstIndex(all, code).None? <==> forall j :: 0 <= j < |all| ==> all[j].code != code
    ensures FirstIndex(all, code).Some? ==>
      var k := FirstIndex(all, code).value;
      k < |all| && all[k].code == code && forall j :: 0 <= j < k ==> all[j].code != code
    decreases |all|
  {
    if all != [] && all[0].code != code {
      var t := all[1..];
      FirstIndexSpec(t, code);
      assert forall j :: 1 <= j < |all| ==> all[j] == t[j - 1];
    }
  }

  // ---------------------------------------------------------------------------
  // Currencies

  class Currencies {
    var all: seq<Entry>
    var codes: set<string>

    /** `codes` is the set of the codes in `all`, each code appears once, and USD, EUR and CAD are present. */
    predicate Valid()
      reads this
    {
      codes == CodesOf(all) && DistinctCodes(all) && Legacy <= codes
    }

    /** The class-level initial state: USD, EUR and CAD with priorities 1, 2 and 4. */
    constructor ()
      ensures Valid()
      ensures all == [Entry("USD", "U.S. dollar", 1), Entry("EUR", "European Euro", 2), Entry("CAD", "Canadian dollar", 4)]
    {
      all := [Entry("USD", "U.S. dollar", 1), Entry("EUR", "European Euro", 2), Entry("CAD", "Canadian dollar", 4)];
      codes := {"USD", "EUR", "CAD"};
      new;
      assert all[0].code == "USD" && all[1].code == "EUR" && all[2].code == "CAD";
    }

    /** `has`: case-insensitive membership. */
    predicate Has(code: string): (r: bool)
      reads this
      ensures Valid() ==> (r <==> exists i :: 0 <= i < |all| && all[i].code == Upper(code))
    {
      Upper(code) in codes
    }

    /** The case a code is written in does not matter. */
    lemma HasMeansEntry(code: string)
      ensures Has(code) == Has(Upper(code)) == Has(Lower(code))
    {
      UpperOfCase(code);
    }

    /**
     * `register`: the code is upper-cased; a code already known leaves the
     * registry untouched, any other is added to `codes` and appended to `all`.
     */
    method Register(code: string, name: string, priority: int)
      requires Valid()
      modifies this
      ensures Valid()
      ensures Upper(code) in old(codes) ==> all == old(all) && codes == old(codes)
      ensures Upper(code) !in old(codes) ==>
        codes == old(codes) + {Upper(code)} && all == old(all) + [Entry(Upper(code), name, priority)]
    {
      var u := Upper(code);
      UpperOfCase(code);
      if Has(u) {
        return;
      }
      CodesOfAppend(all, Entry(u, name, priority));
      codes := codes + {u};
      all := all + [Entry(u, name, priority)];
    }

    /** `sort_currencies`: `all` sorted by `(priority, code)`. */
    method SortCurrencies()
      requires Valid()
      modifies this
      ensures Valid()
      ensures all == SortEntries(old(all)) && codes == old(codes)
    {
      SortEntriesProperties(all);
      all := SortEntries(all);
    }

    /**
     * `reset_currencies`: only USD, EUR and CAD are left, sorted. The
     * rate database reset and the foreign registry reset are not modelled.
     */
    method ResetCurrencies()
      requires Valid()
      modifies this
      ensures Valid()
      ensures codes == Legacy
      ensures all == SortEntries(Filter(old(all), Legacy))
    {
      FilterCodes(all, Legacy);
      codes := Legacy;
      all := Filter(all, Legacy);
      SortCurrencies();
    }

    /** `display_list`: one "code - name" line per entry, in the order of `all`. */
    function DisplayList(): (r: seq<string>)
      reads this
      ensures |r| == |all|
      ensures forall i :: 0 <= i < |all| ==> r[i] == all[i].code + " - " + all[i].name
      ensures forall i :: 0 <= i < |all| ==> r[i][..|all[i].code|] == all[i].code
    {
      seq(|all|, i requires 0 <= i < |all| reads this => all[i].code + " - " + all[i].name)
    }

    /**
     * Each line of the display list starts with its currency's code, which
     * reads back as the text before the first space when the code has no
     * space; so in a valid registry different currencies give different lines.
     */
    lemma DisplayListReadsBack(i: int, j: int)
      requires Valid()
      requires 0 <= i < |all| && 0 <= j < |all|
      requires NoSpace(all[i].code) && NoSpace(all[j].code)
      ensures CodeOfLine(DisplayList()[i]) == all[i].code
      ensures DisplayList()[i] == DisplayList()[j] <==> i == j
    {
      CodeOfLineOf(all[i].code, " - " + all[i].name);
      CodeOfLineOf(all[j].code, " - " + all[j].name);
      assert DisplayList()[i] == all[i].code + (" - " + all[i].name);
      assert DisplayList()[j] == all[j].code + (" - " + all[j].name);
    }

    /** `index`: the position of the first entry with exactly `code`, or `IndexError`. */
    method Index(code: string) returns (r: Result<nat>)
      ensures r.Err? <==> forall j :: 0 <= j < |all| ==> all[j].code != code
      ensures r.Err? ==> r.error == IndexError
      ensures r.Ok? ==> r.value < |all| && all[r.value].code == code
      ensures r.Ok? ==> forall j :: 0 <= j < r.value ==> all[j].code != code
      ensures r == if FirstIndex(all, code).Some? then Ok(FirstIndex(all, code).value) else Err(IndexError)
    {
      FirstIndexSpec(all, code);
      var i := 0;
      while i < |all|
        invariant 0 <= i <= |all|
        invariant forall j :: 0 <= j < i ==> all[j].code != code
      {
        if all[i].code == code {
          return Ok(i);
        }
        i := i + 1;
      }
      return Err(IndexError);
    }

    /** `code_at_index`: a negative index, or one past the end of `all`, raises `IndexError`. */
    function CodeAtIndex(index: int): (r: Result<string>)
      reads this
      ensures r.Err? <==> index < 0 || index >= |all|
      ensures r.Err? ==> r.error == IndexError
      ensures r.Ok? ==> r.value == all[index].code
    {
      if index < 0 || index >= |all| then Err(IndexError) else Ok(all[index].code)
    }

    /** In a valid registry, `index` undoes `code_at_index`, and the found position holds the code. */
    lemma IndexOfCodeAtIndex(i: int)
      requires Valid()
      requires 0 <= i < |all|
      ensures CodeAtIndex(i) == Ok(all[i].code)
      ensures FirstIndex(all, all[i].code) == Some(i)
    {
      FirstIndexSpec(all, all[i].code);
      var k := FirstIndex(all, all[i].code).value;
      assert !(k < i);
    }
  }

  // ---------------------------------------------------------------------------
  // ensure_rates: range planning

  /** A cached or planned `(start, end)` pair of dates. */
  datatype Range = Range(start: Date, end: Date)

  /** One planned request: `(currency, fetch_start, fetch_end)`. */
  datatype Chunk = Chunk(currency: string, start: Date, end: Date)

  function Min(a: int, b: int): int { if a <= b then a else b }

  /** The bites `[s, min(s + 30, e)]`, each starting where the previous one ends, until `e` is reached. */
  function Chunks(c: string, s: Date, e: Date): (r: seq<Chunk>)
    ensures r == [] <==> s >= e
    ensures forall k :: k in r ==>
      k.currency == c && k.start < k.end <= k.start + 30 && s <= k.start && k.end <= e
    decreases e - s
  {
    if s >= e then [] else
    var n := Min(s + 30, e);
    [Chunk(c, s, n)] + Chunks(c, n, e)
  }

  /** The chunks of a range: none for an empty range, otherwise contiguous bites of at most 30 days from `s` to `e`. */
  lemma ChunksSpec(c: string, s: Date, e: Date)
    ensures var ch := Chunks(c, s, e);
      (ch == [] <==> s >= e) &&
      (s < e ==> ch[0].start == s && ch[|ch| - 1].end == e) &&
      (forall i :: 0 <= i < |ch| ==>
        ch[i].currency == c && ch[i].start < ch[i].end <= ch[i].start + 30 && s <= ch[i].start && ch[i].end <= e) &&
      (forall i :: 0 <= i < |ch| - 1 ==> ch[i + 1].start == ch[i].end && ch[i].end == ch[i].start + 30)
  {
    ChunksEnds(c, s, e);
    ChunksContiguous(c, s, e);
    var ch := Chunks(c, s, e);
    assert forall i :: 0 <= i < |ch| ==> ch[i] in ch;
  }

  lemma {:induction false} ChunksEnds(c: string, s: Date, e: Date)
    ensures var ch := Chunks(c, s, e);
      (ch == [] <==> s >= e) && (s < e ==> ch[0].start == s && ch[|ch| - 1].end == e)
    decreases e - s
  {
    if s < e {
      var n := Min(s + 30, e);
      ChunksEnds(c, n, e);
      var ch := Chunks(c, s, e);
      var rest := Chunks(c, n, e);
      assert ch == [Chunk(c, s, n)] + rest;
      if rest != [] {
        assert ch[|ch| - 1] == rest[|rest| - 1];
      }
    }
  }

  lemma {:induction false} ChunksContiguous(c: string, s: Date, e: Date)
    ensures var ch := Chunks(c, s, e);
      forall i :: 0 <= i < |ch| - 1 ==> ch[i + 1].start == ch[i].end && ch[i].end == ch[i].start + 30
    decreases e - s
  {
    if s < e {
      var n := Min(s + 30, e);
      ChunksContiguous(c, n, e);
      ChunksEnds(c, n, e);
      var ch := Chunks(c, s, e);
      var rest := Chunks(c, n, e);
      assert ch == [Chunk(c, s, n)] + rest;
      forall i | 0 <= i < |ch| - 1
        ensures ch[i + 1].start == ch[i].end && ch[i].end == ch[i].start + 30
      {
        if i > 0 {
          assert ch[i] == rest[i - 1] && ch[i + 1] == rest[i];
        } else {
          assert ch[1] == rest[0];
        }
      }
    }
  }

  /** `_fetched_ranges[currency]`, or `date_range(currency)` when the currency has not been fetched. */
  function CachedRange(fetched: map<string, Range>, stored: map<string, Range>, c: string): Option<Range>
  {
    if c in fetched then Some(fetched[c]) else if c in stored then Some(stored[c]) else None
  }

  /**
   * `(range_start, range_end)`: up to yesterday, starting at `start_date`;
   * a forward fetch after the cached end when `start_date` is not before
   * the cached start, otherwise a backward fetch up to the cached start.
   */
  function FetchRange(startDate: Date, today: Date, cached: Option<Range>): Range
  {
    if cached.None? then Range(startDate, today - 1)
    else if startDate >= cached.value.start then Range(cached.value.end + 1, today - 1)
    else Range(startDate, cached.value.start - 1)
  }

  /**
   * `currencies_and_range` for `currencies` and the ranges fetched so far;
   * each currency other than CAD records `(start_date, today)` for the
   * currencies after it, a repeated currency included.
   */
  function Plan(cs: seq<string>, startDate: Date, today: Date, fetched: map<string, Range>, stored: map<string, Range>): (r: seq<Chunk>)
    ensures forall k :: k in r ==> k.currency != "CAD" && k.currency in cs
    decreases |cs|
  {
    if cs == [] then []
    else
      assert forall x :: x in cs[1..] ==> x in cs;
      if cs[0] == "CAD" then Plan(cs[1..], startDate, today, fetched, stored)
      else
        var r := FetchRange(startDate, today, CachedRange(fetched, stored, cs[0]));
        Chunks(cs[0], r.start, r.end) + Plan(cs[1..], startDate, today, fetched[cs[0] := Range(startDate, today)], stored)
  }

  lemma PlanStep(cs: seq<string>, i: nat, startDate: Date, today: Date, fetched: map<string, Range>, stored: map<string, Range>)
    requires i < |cs|
    ensures Plan(cs[i..], startDate, today, fetched, stored) ==
      if cs[i] == "CAD" then Plan(cs[i + 1..], startDate, today, fetched, stored)
      else
        var r := FetchRange(startDate, today, CachedRange(fetched, stored, cs[i]));
        Chunks(cs[i], r.start, r.end) + Plan(cs[i + 1..], startDate, today, fetched[cs[i] := Range(startDate, today)], stored)
  {
    assert cs[i..][1..] == cs[i + 1..];
  }

  /** One step of `ensure_rates`: a currency other than CAD moves its chunks from the rest of the plan to what is planned so far. */
  lemma PlanAdvance(done: seq<Chunk>, cs: seq<string>, i: nat, startDate: Date, today: Date, fetched: map<string, Range>, stored: map<string, Range>)
    requires i < |cs| && cs[i] != "CAD"
    ensures var r := FetchRange(startDate, today, CachedRange(fetched, stored, cs[i]));
      done + Plan(cs[i..], startDate, today, fetched, stored) ==
      (done + Chunks(cs[i], r.start, r.end)) + Plan(cs[i + 1..], startDate, today, fetched[cs[i] := Range(startDate, today)], stored)
  {
    PlanStep(cs, i, startDate, today, fetched, stored);
    var r := FetchRange(startDate, today, CachedRange(fetched, stored, cs[i]));
    var ch := Chunks(cs[i], r.start, r.end);
    var rest := Plan(cs[i + 1..], startDate, today, fetched[cs[i] := Range(startDate, today)], stored);
    assert done + (ch + rest) == (done + ch) + rest;
  }

  /** The three kinds of fetch, stated on the chunks they produce. */
  lemma FetchCases(c: string, startDate: Date, today: Date, cached: Option<Range>)
    ensures var r := FetchRange(startDate, today, cached); var ch := Chunks(c, r.start, r.end);
      (cached.None? && startDate < today - 1 ==> ch[0].start == startDate && ch[|ch| - 1].end == today - 1) &&
      (cached.Some? && startDate >= cached.value.start && cached.value.end + 1 < today - 1 ==>
        ch[0].start == cached.value.end + 1 && ch[|ch| - 1].end == today - 1) &&
      (cached.Some? && startDate >= cached.value.start && cached.value.end + 1 >= today - 1 ==> ch == []) &&
      (cached.Some? && startDate < cached.value.start - 1 ==>
        ch[0].start == startDate && ch[|ch| - 1].end == cached.value.start - 1)
  {
    var r := FetchRange(startDate, today, cached);
    ChunksSpec(c, r.start, r.end);
  }

  /** Today's rate is never requested when no cached range starts after today. */
  lemma {:induction false} PlanBeforeToday(cs: seq<string>, startDate: Date, today: Date, fetched: map<string, Range>, stored: map<string, Range>)
    requires startDate < today
    requires forall c :: c in fetched ==> fetched[c].start <= today
    requires forall c :: c in stored ==> stored[c].start <= today
    ensures forall k :: k in Plan(cs, startDate, today, fetched, stored) ==> k.end < today
    decreases |cs|
  {
    if cs != [] {
      var t := cs[1..];
      if cs[0] == "CAD" {
        PlanBeforeToday(t, startDate, today, fetched, stored);
      } else {
        var f := fetched[cs[0] := Range(startDate, today)];
        PlanBeforeToday(t, startDate, today, f, stored);
        var r := FetchRange(startDate, today, CachedRange(fetched, stored, cs[0]));
        ChunksSpec(cs[0], r.start, r.end);
        var ch := Chunks(cs[0], r.start, r.end);
        assert Plan(cs, startDate, today, fetched, stored) == ch + Plan(t, startDate, today, f, stored);
      }
    }
  }

  /**
   * Once every requested currency has recorded `(s0, today)` with `s0` no
   * later than `start_date`, asking again the same day plans nothing.
   */
  lemma {:induction false} PlanAgainIsEmpty(cs: seq<string>, startDate: Date, today: Date, fetched: map<string, Range>, stored: map<string, Range>)
    requires forall i :: 0 <= i < |cs| && cs[i] != "CAD" ==>
      cs[i] in fetched && fetched[cs[i]].start <= startDate && fetched[cs[i]].end == today
    ensures Plan(cs, startDate, today, fetched, stored) == []
    decreases |cs|
  {
    if cs != [] {
      var t := cs[1..];
      assert forall i :: 0 <= i < |t| ==> t[i] == cs[i + 1];
      if cs[0] == "CAD" {
        PlanAgainIsEmpty(t, startDate, today, fetched, stored);
      } else {
        var f := fetched[cs[0] := Range(startDate, today)];
        PlanAgainIsEmpty(t, startDate, today, f, stored);
        var r := FetchRange(startDate, today, CachedRange(fetched, stored, cs[0]));
        assert r.start == today + 1;
        ChunksSpec(cs[0], r.start, r.end);
      }
    }
  }

  /**
   * What `ensure_rates` leaves in `_fetched_ranges` after the currencies
   * `done`: the currencies recorded before, and every one of `done` but CAD
   * with `(start_date, today)`; the others keep their range.
   */
  ghost predicate Recorded(f: map<string, Range>, f0: map<string, Range>, done: seq<string>, startDate: Date, today: Date)
  {
    && (forall c :: c in f <==> c in f0 || (c in done && c != "CAD"))
    && (forall c :: c in done && c != "CAD" ==> c in f && f[c] == Range(startDate, today))
    && (forall c :: c in f0 && (c !in done || c == "CAD") ==> f[c] == f0[c])
  }

  lemma RecordedStep(f: map<string, Range>, f0: map<string, Range>, done: seq<string>, c: string, startDate: Date, today: Date)
    requires Recorded(f, f0, done, startDate, today)
    ensures Recorded(if c == "CAD" then f else f[c := Range(startDate, today)], f0, done + [c], startDate, today)
  {
    assert forall x :: x in done + [c] <==> x in done || x == c;
  }

  /** `_fetched_ranges` after recording `(start_date, today)` for each of `done` but CAD, in order. */
  function RecordAll(f0: map<string, Range>, done: seq<string>, startDate: Date, today: Date): map<string, Range>
    decreases |done|
  {
    if done == [] then f0
    else
      var f := RecordAll(f0, done[..|done| - 1], startDate, today);
      var c := done[|done| - 1];
      if c == "CAD" then f else f[c := Range(startDate, today)]
  }

  lemma {:induction false} RecordAllSpec(f0: map<string, Range>, done: seq<string>, startDate: Date, today: Date)
    ensures Recorded(RecordAll(f0, done, startDate, today), f0, done, startDate, today)
    decreases |done|
  {
    if done != [] {
      var init := done[..|done| - 1];
      RecordAllSpec(f0, init, startDate, today);
      assert done == init + [done[|done| - 1]];
      RecordedStep(RecordAll(f0, init, startDate, today), f0, init, done[|done| - 1], startDate, today);
    } else {
      assert forall c :: c !in done;
    }
  }

  class RatesDB {
    /** `_fetched_ranges`: currency to the `(start, end)` last asked for. */
    var fetchedRanges: map<string, Range>

    constructor ()
      ensures fetchedRanges == map[]
    {
      fetchedRanges := map[];
    }

    /** The choice of `range_start` and `range_end` for one currency and what is cached for it. */
    static method RangeToFetch(startDate: Date, today: Date, cached: Option<Range>) returns (rangeStart: Date, rangeEnd: Date)
      ensures Range(rangeStart, rangeEnd) == FetchRange(startDate, today, cached)
    {
      rangeStart := startDate;
      rangeEnd := today - 1;
      if cached.Some? {
        if rangeStart >= cached.value.start {
          rangeStart := cached.value.end + 1;
        } else {
          rangeEnd := cached.value.start - 1;
        }
      }
    }

    /** The `while cur_end < range_end` loop: bites of at most 30 days from `rangeStart` to `rangeEnd`. */
    static method ChunkRange(c: string, rangeStart: Date, rangeEnd: Date) returns (chunks: seq<Chunk>)
      ensures chunks == Chunks(c, rangeStart, rangeEnd)
    {
      chunks := [];
      var curStart, curEnd := rangeStart, rangeStart;
      while curEnd < rangeEnd
        invariant curStart == curEnd
        invariant chunks + Chunks(c, curEnd, rangeEnd) == Chunks(c, rangeStart, rangeEnd)
        decreases rangeEnd - curEnd
      {
        var next := Min(curEnd + 30, rangeEnd);
        assert Chunks(c, curEnd, rangeEnd) == [Chunk(c, curStart, next)] + Chunks(c, next, rangeEnd);
        curEnd := next;
        chunks := chunks + [Chunk(c, curStart, curEnd)];
        curStart := curEnd;
      }
    }

    /**
     * The planning part of `ensure_rates`: nothing for a start date that is
     * not in the past; otherwise the requests of `Plan`, and every currency
     * but CAD records `(start_date, today)`. `stored` is what `date_range`
     * answers; the fetching thread is not modelled.
     */
    method EnsureRates(startDate: Date, currencies: seq<string>, today: Date, stored: map<string, Range>)
      returns (plan: seq<Chunk>)
      modifies this
      ensures startDate >= today ==> plan == [] && fetchedRanges == old(fetchedRanges)
      ensures startDate < today ==> plan == Plan(currencies, startDate, today, old(fetchedRanges), stored)
      ensures startDate < today ==> fetchedRanges == RecordAll(old(fetchedRanges), currencies, startDate, today)
      ensures startDate < today ==> Recorded(fetchedRanges, old(fetchedRanges), currencies, startDate, today)
    {
      if startDate >= today {
        return [];
      }
      plan := [];
      ghost var goal := Plan(currencies, startDate, today, fetchedRanges, stored);
      var i := 0;
      while i < |currencies|
        invariant 0 <= i <= |currencies|
        invariant plan + Plan(currencies[i..], startDate, today, fetchedRanges, stored) == goal
        invariant fetchedRanges == RecordAll(old(fetchedRanges), currencies[..i], startDate, today)
      {
        var c := currencies[i];
        assert currencies[..i + 1][..i] == currencies[..i];
        ghost var now := Plan(currencies[i..], startDate, today, fetchedRanges, stored);
        PlanStep(currencies, i, startDate, today, fetchedRanges, stored);
        if c != "CAD" {
          var rangeStart, rangeEnd := RangeToFetch(startDate, today, CachedRange(fetchedRanges, stored, c));
          var chunks := ChunkRange(c, rangeStart, rangeEnd);
          ghost var rest := Plan(currencies[i + 1..], startDate, today, fetchedRanges[c := Range(startDate, today)], stored);
          assert now == chunks + rest;
          PlanAdvance(plan, currencies, i, startDate, today, fetchedRanges, stored);
          plan := plan + chunks;
          fetchedRanges := fetchedRanges[c := Range(startDate, today)];
          assert plan + rest == goal;
        } else {
          assert now == Plan(currencies[i + 1..], startDate, today, fetchedRanges, stored);
        }
        assert plan + Plan(currencies[i + 1..], startDate, today, fetchedRanges, stored) == goal;
        i := i + 1;
      }
      assert currencies[..i] == currencies;
      RecordAllSpec(old(fetchedRanges), currencies, startDate, today);
    }
  }
}
