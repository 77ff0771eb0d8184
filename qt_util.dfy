/**
 * `qt/util.py`: escaping `&` in action texts, and `setAccelKeys`, which
 * gives each action of a menu its own keyboard accelerator by inserting
 * `&` before one letter of its text.
 */
module QtUtil {
  import opened Wrappers

  /** `escapeamp`: every `&` doubled, everything else kept. */
  function EscapeAmp(s: string): (r: string)
    ensures |r| == |s| + multiset(s)['&']
    ensures '&' !in s ==> r == s
  {
    if s == [] then []
    else
      assert s == [s[0]] + s[1..];
      (if s[0] == '&' then "&&" else [s[0]]) + EscapeAmp(s[1..])
  }

  /**
   * The text Qt shows for an action text: `&&` is a literal `&`, and a
   * single `&` marks the next character as the accelerator and is not shown.
   */
  function Displayed(s: string): string
  {
    if s == [] then []
    else if s[0] == '&' then (if |s| >= 2 then [s[1]] + Displayed(s[2..]) else [])
    else [s[0]] + Displayed(s[1..])
  }

  /** An escaped text is shown exactly as the original. */
  lemma {:induction false} DisplayedEscapeAmp(s: string)
    ensures Displayed(EscapeAmp(s)) == s
  {
    if s != [] {
      DisplayedEscapeAmp(s[1..]);
      var e := EscapeAmp(s);
      if s[0] == '&' {
        assert e == "&&" + EscapeAmp(s[1..]);
        assert e[2..] == EscapeAmp(s[1..]);
      } else {
        assert e == [s[0]] + EscapeAmp(s[1..]);
        assert e[1..] == EscapeAmp(s[1..]);
      }
    }
  }

  /** `str.isalpha()` on one character, and `str.lower()`, on ASCII letters. */
  predicate IsAlpha(c: char) { 'a' <= c <= 'z' || 'A' <= c <= 'Z' }

  function LowerChar(c: char): char { if 'A' <= c <= 'Z' then (c as int + 32) as char else c }

  /** `available_characters`: the lower-cased letters of all the titles. */
  function Pool(titles: seq<string>): set<char>
  {
    set j, i | 0 <= j < |titles| && 0 <= i < |titles[j]| && IsAlpha(titles[j][i]) :: LowerChar(titles[j][i])
  }

  /** The pool holds only lower-case letters. */
  lemma PoolLetters(titles: seq<string>)
    ensures forall c :: c in Pool(titles) ==> 'a' <= c <= 'z'
  {
  }

  /** `first(c for c in text if c.lower() in available_characters)`, as a position. */
  function FirstAvailable(t: string, pool: set<char>): (r: Option<nat>)
    ensures r.Some? ==> r.value < |t| && LowerChar(t[r.value]) in pool
    ensures r.Some? ==> forall k :: 0 <= k < r.value ==> LowerChar(t[k]) !in pool
    ensures r.None? ==> forall k :: 0 <= k < |t| ==> LowerChar(t[k]) !in pool
    decreases |t|
  {
    if t == [] then None
    else if LowerChar(t[0]) in pool then Some(0)
    else match FirstAvailable(t[1..], pool)
      case None => None
      case Some(k) => Some(k + 1)
  }

  /** The text with `&` inserted before position `i`. */
  function Mark(t: string, i: nat): string
    requires i <= |t|
  {
    t[..i] + "&" + t[i..]
  }

  /** Deleting the inserted `&` gives back the text, and a text without `&` is still shown as itself. */
  lemma MarkRestores(t: string, i: nat)
    requires i < |t|
    ensures Mark(t, i)[..i] + Mark(t, i)[i + 1..] == t
    ensures |Mark(t, i)| == |t| + 1 && Mark(t, i)[i] == '&'
    ensures '&' !in t ==> Displayed(Mark(t, i)) == t
  {
    var m := Mark(t, i);
    assert m[..i] == t[..i];
    assert m[i + 1..] == t[i..];
    assert t == t[..i] + t[i..];
    if '&' !in t {
      var rest := t[i + 1..];
      assert t[i..] == [t[i]] + rest;
      assert m == t[..i] + (['&', t[i]] + rest);
      assert forall c :: c in t[..i] ==> c in t;
      assert forall c :: c in rest ==> c in t;
      DisplayedAppend(t[..i], ['&', t[i]] + rest);
      DisplayedAmp(t[i], rest);
      DisplayedPlain(rest);
    }
  }

  lemma DisplayedCons(c: char, s: string)
    requires c != '&'
    ensures Displayed([c] + s) == [c] + Displayed(s)
  {
    assert ([c] + s)[0] == c && ([c] + s)[1..] == s;
  }

  lemma DisplayedAmp(c: char, s: string)
    ensures Displayed(['&', c] + s) == [c] + Displayed(s)
  {
    var x := ['&', c] + s;
    assert x[0] == '&' && x[1] == c && x[2..] == s;
  }

  lemma {:induction false} DisplayedPlain(s: string)
    requires '&' !in s
    ensures Displayed(s) == s
  {
    if s != [] {
      assert s == [s[0]] + s[1..];
      assert forall c :: c in s[1..] ==> c in s;
      DisplayedPlain(s[1..]);
      DisplayedCons(s[0], s[1..]);
    }
  }

  lemma {:induction false} DisplayedAppend(a: string, b: string)
    requires '&' !in a
    ensures Displayed(a + b) == a + Displayed(b)
  {
    if a != [] {
      var a' := a[1..];
      assert a == [a[0]] + a';
      assert a + b == [a[0]] + (a' + b);
      assert forall c :: c in a' ==> c in a;
      assert a[0] in a;
      DisplayedCons(a[0], a' + b);
      DisplayedAppend(a', b);
      calc {
        Displayed(a + b);
        Displayed([a[0]] + (a' + b));
        [a[0]] + Displayed(a' + b);
        [a[0]] + (a' + Displayed(b));
        a + Displayed(b);
      }
    } else {
      assert a + b == b;
    }
  }

  /** What the loop of `setAccelKeys` has produced after some of the titles. */
  datatype AccelState = AccelState(out: seq<string>, pool: set<char>, chosen: seq<Option<nat>>)

  /** The loop of `setAccelKeys` over the first `n` titles, starting from the letters `pool0`. */
  function Accel(titles: seq<string>, pool0: set<char>, n: nat): (r: AccelState)
    requires n <= |titles|
    ensures |r.out| == n && |r.chosen| == n
    ensures forall j :: 0 <= j < n && r.chosen[j].Some? ==> r.chosen[j].value < |titles[j]|
    decreases n
  {
    if n == 0 then AccelState([], pool0, [])
    else
      var st := Accel(titles, pool0, n - 1);
      var t := titles[n - 1];
      match FirstAvailable(t, st.pool)
      case None => AccelState(st.out + [t], st.pool, st.chosen + [None])
      case Some(i) => AccelState(st.out + [Mark(t, i)], st.pool - {LowerChar(t[i])}, st.chosen + [Some(i)])
  }

  /** The accelerator letter chosen for title `j`. */
  function Letter(titles: seq<string>, chosen: seq<Option<nat>>, j: int): char
    requires 0 <= j < |titles| && j < |chosen| && chosen[j].Some? && chosen[j].value < |titles[j]|
  {
    LowerChar(titles[j][chosen[j].value])
  }

  /** One more title: kept, or marked before its first character still in the pool, whose letter leaves the pool. */
  lemma AccelNext(titles: seq<string>, pool0: set<char>, k: nat)
    requires k < |titles|
    ensures var st := Accel(titles, pool0, k); var t := titles[k]; var r := Accel(titles, pool0, k + 1);
      match FirstAvailable(t, st.pool)
      case None => r.out == st.out + [t] && r.pool == st.pool && r.chosen == st.chosen + [None]
      case Some(i) => (i < |t| && r.out == st.out + [Mark(t, i)] && r.pool == st.pool - {LowerChar(t[i])} &&
        r.chosen == st.chosen + [Some(i)])
  {
  }

  /** One more title leaves what was written so far in place and the pool no larger. */
  lemma AccelNextKeeps(titles: seq<string>, pool0: set<char>, k: nat)
    requires k < |titles|
    ensures Accel(titles, pool0, k + 1).out[..k] == Accel(titles, pool0, k).out
    ensures Accel(titles, pool0, k + 1).chosen[..k] == Accel(titles, pool0, k).chosen
  {
    var st := Accel(titles, pool0, k);
    var r := Accel(titles, pool0, k + 1);
    AccelNext(titles, pool0, k);
    var x := r.out[k];
    var y := r.chosen[k];
    assert r.out == st.out + [x] && r.chosen == st.chosen + [y];
  }

  /** Later steps keep what earlier steps wrote. */
  lemma {:induction false} AccelPrefix(titles: seq<string>, pool0: set<char>, m: nat, n: nat)
    requires m <= n <= |titles|
    ensures Accel(titles, pool0, n).out[..m] == Accel(titles, pool0, m).out
    ensures Accel(titles, pool0, n).chosen[..m] == Accel(titles, pool0, m).chosen
    decreases n - m
  {
    var r := Accel(titles, pool0, n);
    if m < n {
      AccelPrefix(titles, pool0, m, n - 1);
      AccelNextKeeps(titles, pool0, n - 1);
      SlicePrefix(r.out, n - 1, m);
      SlicePrefix(r.chosen, n - 1, m);
    } else {
      assert r.out[..m] == r.out && r.chosen[..m] == r.chosen;
    }
  }

  /** Later steps only take letters out of the pool. */
  lemma {:induction false} AccelPoolShrinks(titles: seq<string>, pool0: set<char>, m: nat, n: nat, c: char)
    requires m <= n <= |titles|
    ensures c in Accel(titles, pool0, n).pool ==> c in Accel(titles, pool0, m).pool
    decreases n - m
  {
    if m < n {
      AccelNext(titles, pool0, n - 1);
      AccelPoolShrinks(titles, pool0, m, n - 1, c);
    }
  }

  lemma SlicePrefix<T>(s: seq<T>, n: nat, m: nat)
    requires m <= n <= |s|
    ensures s[..n][..m] == s[..m]
  {
  }

  /**
   * Title `j` is either unchanged, or has `&` inserted before a character
   * whose lower case is a letter of the pool; that letter is gone from the
   * pool for every later title.
   */
  lemma {:induction false} AccelTitle(titles: seq<string>, pool0: set<char>, n: nat, j: nat)
    requires j < n <= |titles|
    ensures var r := Accel(titles, pool0, n);
      (r.chosen[j].None? ==> r.out[j] == titles[j]) &&
      (r.chosen[j].Some? ==> (r.chosen[j].value < |titles[j]| &&
        r.out[j] == Mark(titles[j], r.chosen[j].value) &&
        Letter(titles, r.chosen, j) in pool0 &&
        Letter(titles, r.chosen, j) in Accel(titles, pool0, j).pool &&
        Letter(titles, r.chosen, j) !in r.pool))
  {
    AccelStep(titles, pool0, j);
    AccelPrefix(titles, pool0, j + 1, n);
    var r := Accel(titles, pool0, n);
    var r1 := Accel(titles, pool0, j + 1);
    assert r.chosen[j] == r.chosen[..j + 1][j] && r.out[j] == r.out[..j + 1][j];
    assert r.chosen[j] == r1.chosen[j] && r.out[j] == r1.out[j];
    if r.chosen[j].Some? {
      var c := Letter(titles, r.chosen, j);
      assert c == Letter(titles, r1.chosen, j);
      assert c in Accel(titles, pool0, j).pool;
      AccelPoolShrinks(titles, pool0, 0, j, c);
      assert c !in r1.pool;
      AccelPoolShrinks(titles, pool0, j + 1, n, c);
    }
  }

  /** The step that handles title `j`. */
  lemma AccelStep(titles: seq<string>, pool0: set<char>, j: nat)
    requires j < |titles|
    ensures var r := Accel(titles, pool0, j + 1); var st := Accel(titles, pool0, j);
      (r.chosen[j].None? ==> r.out[j] == titles[j]) &&
      (r.chosen[j].Some? ==> (r.chosen[j].value < |titles[j]| &&
        r.out[j] == Mark(titles[j], r.chosen[j].value) &&
        Letter(titles, r.chosen, j) in st.pool &&
        Letter(titles, r.chosen, j) !in r.pool))
  {
    AccelNext(titles, pool0, j);
  }

  /** No two titles get the same accelerator letter. */
  lemma {:induction false} AccelDistinct(titles: seq<string>, pool0: set<char>, n: nat, j: nat, k: nat)
    requires j < k < n <= |titles|
    requires Accel(titles, pool0, n).chosen[j].Some? && Accel(titles, pool0, n).chosen[k].Some?
    ensures Letter(titles, Accel(titles, pool0, n).chosen, j) != Letter(titles, Accel(titles, pool0, n).chosen, k)
  {
    AccelTitle(titles, pool0, n, j);
    AccelTitle(titles, pool0, n, k);
    AccelTitle(titles, pool0, k, j);
    AccelPrefix(titles, pool0, k, n);
    var r := Accel(titles, pool0, n);
    assert r.chosen[j] == r.chosen[..k][j];
  }

  /**
   * A title is left unchanged only when none of its characters is still in
   * the pool when its turn comes; otherwise the `&` goes before the first one
   * that is.
   */
  lemma AccelChoice(titles: seq<string>, pool0: set<char>, n: nat)
    requires 0 < n <= |titles|
    ensures var st := Accel(titles, pool0, n - 1); var r := Accel(titles, pool0, n); var t := titles[n - 1];
      (r.chosen[n - 1].None? <==> forall k :: 0 <= k < |t| ==> LowerChar(t[k]) !in st.pool) &&
      (r.chosen[n - 1].Some? ==> forall k :: 0 <= k < r.chosen[n - 1].value ==> LowerChar(t[k]) !in st.pool)
  {
  }

  /** `setAccelKeys`, on the texts of the menu's actions. */
  method SetAccelKeys(texts: array<string>)
    modifies texts
    ensures texts[..] == Accel(old(texts[..]), Pool(old(texts[..])), texts.Length).out
  {
    ghost var titles := texts[..];
    var available := set j, i | 0 <= j < texts.Length && 0 <= i < |texts[j]| && IsAlpha(texts[j][i]) :: LowerChar(texts[j][i]);
    ghost var pool0 := Pool(titles);
    assert available == pool0;
    var k := 0;
    while k < texts.Length
      invariant 0 <= k <= texts.Length
      invariant forall m :: k <= m < texts.Length ==> texts[m] == titles[m]
      invariant texts[..k] == Accel(titles, pool0, k).out && available == Accel(titles, pool0, k).pool
    {
      ghost var before := texts[..k];
      AccelNext(titles, pool0, k);
      var text := texts[k];
      var c := FirstAvailable(text, available);
      if c.Some? {
        // `text.index(c)` is the position `first` found: no earlier character matches
        var i := c.value;
        texts[k] := text[..i] + "&" + text[i..];
        available := available - {LowerChar(text[i])};
        assert texts[k] == Mark(titles[k], i);
      }
      assert texts[..k] == before;
      assert texts[..k + 1] == before + [texts[k]];
      k := k + 1;
    }
    assert texts[..] == texts[..k];
  }
}
