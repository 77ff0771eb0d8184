/**
 * `ccore/save/native.c`: the moneyguru XML document, written element by
 * element to a file.
 *
 * The file is an `OutFile` whose `text` grows with each `fwrite`. Markup
 * escaping (`g_markup_printf_escaped`) and amount formatting
 * (`amount_format`, which can fail) are parameters; `localtime` on a date is
 * the civil date of its day number.
 */
module NativeSave {
  import opened Wrappers
  import opened Calendar
  import opened Recurrence
  import opened Transactions
  import opened Spawning
  import opened Schedules
  import opened Decimal

  // ---------------------------------------------------------------------------
  // Numbers and dates as text

  /** `%02d` of a number below 100. */
  function Pad2(n: int): (r: string)
    requires 0 <= n < 100
    ensures |r| == 2 && AllDigits(r)
  {
    [DigitChar(n / 10), DigitChar(n % 10)]
  }

  /**
   * `date2str`: `year-MM-DD`, the year unpadded, month and day on two
   * digits. It loses nothing: the date is read back from its text.
   */
  function Date2Str(d: Date): (r: string)
    requires ValidDate(d)
    ensures ParseDate(r) == Some(d)
  {
    var c := FromDate(d);
    ParseCivilOf(c.year, c.month, c.day);
    ToFromDate(d);
    NatStr(c.year) + "-" + Pad2(c.month) + "-" + Pad2(c.day)
  }

  /** The fields of a `year-MM-DD` string, whether or not they form a valid date. */
  function ParseCivil(s: string): Option<Civil>
  {
    if |s| < 7 then None
    else
      var y := s[..|s| - 6];
      var t := s[|s| - 6..];
      if !AllDigits(y) || t[0] != '-' || t[3] != '-' || !AllDigits(t[1..3]) || !AllDigits(t[4..]) then None
      else Some(Civil(ParseNat(y), ParsePair(t[1..3]), ParsePair(t[4..])))
  }

  /** The value of two decimal digits. */
  function ParsePair(s: string): int
    requires |s| == 2
  {
    10 * DigitVal(s[0]) + DigitVal(s[1])
  }

  /** The inverse of `date2str`: a `year-MM-DD` string of a valid civil date. */
  function ParseDate(s: string): (r: Option<Date>)
    ensures r.Some? ==> ValidDate(r.value)
  {
    match ParseCivil(s)
    case None => None
    case Some(c) => if ValidCivil(c) then (FromToDate(c); Some(ToDate(c))) else None
  }

  lemma {:induction false} ParsePad2(n: int)
    requires 0 <= n < 100
    ensures ParsePair(Pad2(n)) == n
  {
  }

  /** The fields are read back from their text. */
  lemma {:induction false} ParseCivilOf(year: nat, month: int, day: int)
    requires 0 <= month < 100 && 0 <= day < 100
    ensures ParseCivil(NatStr(year) + "-" + Pad2(month) + "-" + Pad2(day)) == Some(Civil(year, month, day))
  {
    var ys := NatStr(year);
    var s := NatStr(year) + "-" + Pad2(month) + "-" + Pad2(day);
    assert s == ys + ("-" + Pad2(month) + "-" + Pad2(day));
    assert s[..|s| - 6] == ys;
    var t := s[|s| - 6..];
    assert t == "-" + Pad2(month) + "-" + Pad2(day);
    assert t[0] == '-' && t[3] == '-' && t[1..3] == Pad2(month) && t[4..] == Pad2(day);
    ParseNatStr(year);
    ParsePad2(month);
    ParsePad2(day);
  }

  /** Different dates are written differently. */
  lemma {:induction false} Date2StrInjective(d1: Date, d2: Date)
    requires ValidDate(d1) && ValidDate(d2) && Date2Str(d1) == Date2Str(d2)
    ensures d1 == d2
  {
  }

  // ---------------------------------------------------------------------------
  // escape_newline

  /** `escape_newline`: every newline becomes the two characters `\` and `n`. */
  function EscapeNewline(s: string): (r: string)
    ensures forall i :: 0 <= i < |r| ==> r[i] != '\n'
    ensures |r| >= |s|
    decreases |s|
  {
    if |s| == 0 then "" else (if s[0] == '\n' then "\\n" else [s[0]]) + EscapeNewline(s[1..])
  }

  /** Escaping works character by character. */
  lemma {:induction false} EscapeNewlineConcat(a: string, b: string)
    ensures EscapeNewline(a + b) == EscapeNewline(a) + EscapeNewline(b)
    decreases |a|
  {
    if |a| == 0 {
      assert a + b == b;
    } else {
      var ab := a + b;
      var h := if a[0] == '\n' then "\\n" else [a[0]];
      assert ab[0] == a[0];
      assert ab[1..] == a[1..] + b;
      assert EscapeNewline(ab) == h + EscapeNewline(ab[1..]);
      EscapeNewlineConcat(a[1..], b);
      assert EscapeNewline(a) == h + EscapeNewline(a[1..]);
    }
  }

  /** A newline becomes `\n`; any other character is kept. */
  lemma {:induction false} EscapeNewlineChar(c: char)
    ensures EscapeNewline([c]) == if c == '\n' then "\\n" else [c]
  {
    assert [c][1..] == "";
  }

  /** Text without newlines is written as it is. */
  lemma {:induction false} EscapeNewlinePlain(s: string)
    requires forall i :: 0 <= i < |s| ==> s[i] != '\n'
    ensures EscapeNewline(s) == s
    decreases |s|
  {
    if |s| > 0 {
      EscapeNewlinePlain(s[1..]);
      assert [s[0]] + s[1..] == s;
    }
  }

  // ---------------------------------------------------------------------------
  // What is written, as tokens

  /**
   * One piece of what an `fwrite` puts in the file: markup text, a `%s`
   * argument (markup-escaped when rendered), a `%d` / `%ld` argument, or a
   * date formatted by `date2str` and passed as a `%s` argument.
   */
  datatype Token = Lit(text: string) | Arg(value: string) | Num(n: int) | Day(d: Date)

  /** The foreign helpers: markup escaping and `amount_format`, which can fail. */
  datatype Env = Env(esc: string -> string, amountFormat: Amount -> Option<string>)

  predicate TokenValid(t: Token) { t.Day? ==> ValidDate(t.d) }

  predicate TokensValid(ts: seq<Token>) { forall i :: 0 <= i < |ts| ==> TokenValid(ts[i]) }

  function RenderToken(t: Token, env: Env): string
    requires TokenValid(t)
  {
    match t
    case Lit(s) => s
    case Arg(s) => env.esc(s)
    case Num(n) => IntStr(n)
    case Day(d) => env.esc(Date2Str(d))
  }

  /** The characters of the file. */
  function Render(ts: seq<Token>, env: Env): string
    requires TokensValid(ts)
    decreases |ts|
  {
    if |ts| == 0 then "" else Render(ts[..|ts| - 1], env) + RenderToken(ts[|ts| - 1], env)
  }

  /** Rendering works piece by piece: what is written later follows what was written before. */
  lemma {:induction false} RenderAppend(a: seq<Token>, b: seq<Token>, env: Env)
    requires TokensValid(a) && TokensValid(b)
    ensures TokensValid(a + b)
    ensures Render(a + b, env) == Render(a, env) + Render(b, env)
    decreases |b|
  {
    if |b| > 0 {
      var b' := b[..|b| - 1];
      var t := b[|b| - 1];
      var x, y, z := Render(a, env), Render(b', env), RenderToken(t, env);
      assert x + (y + z) == (x + y) + z by {
        assert forall k :: 0 <= k < |x| + |y| + |z| ==> (x + (y + z))[k] == ((x + y) + z)[k];
      }
      assert b == b' + [t];
      assert a + b == (a + b') + [t];
      ValidPrefix(b, |b| - 1);
      RenderAppend(a, b', env);
      RenderSnoc(a + b', t, env);
      RenderSnoc(b', t, env);
    } else {
      assert a + b == a;
    }
  }

  /** Writing one more token appends its text. */
  lemma RenderSnoc(ts: seq<Token>, t: Token, env: Env)
    requires TokensValid(ts) && TokenValid(t)
    ensures TokensValid(ts + [t])
    ensures Render(ts + [t], env) == Render(ts, env) + RenderToken(t, env)
  {
    var s := ts + [t];
    assert s[..|s| - 1] == ts && s[|s| - 1] == t;
    ValidAppend(ts, [t]);
  }

  lemma ValidPrefix(s: seq<Token>, n: nat)
    requires TokensValid(s) && n <= |s|
    ensures TokensValid(s[..n])
  {
    assert forall i :: 0 <= i < n ==> s[..n][i] == s[i];
  }

  /** A format with one `%s`: the markup before it and after it. */
  datatype Fmt = Fmt(before: string, after: string)

  /** `g_markup_printf_escaped(fmt, arg)`. */
  function Markup(f: Fmt, arg: string): seq<Token> { [Lit(f.before), Arg(arg), Lit(f.after)] }

  /** `setattrib`: nothing for a NULL value. */
  function AttribTokens(f: Fmt, val: Option<string>): seq<Token>
  {
    if val.None? then [] else Markup(f, val.value)
  }

  /** `writedate`: nothing for date 0. */
  function DateTokens(f: Fmt, val: Date): seq<Token>
  {
    if val == NoDate then [] else [Lit(f.before), Day(val), Lit(f.after)]
  }

  function Attr(name: string): Fmt { Fmt(" " + name + "=\"", "\"") }

  /** The notes attribute: newlines escaped before the markup escaping. */
  function NotesTokens(notes: Option<string>): seq<Token>
  {
    if notes.Some? then AttribTokens(Attr("notes"), Some(EscapeNewline(notes.value))) else []
  }

  // ---------------------------------------------------------------------------
  // write_txn

  /** The opening `transaction` tag, up to and including `>` and the newline. */
  function TxnOpen(t: Transaction): seq<Token>
  {
    [Lit("<transaction date=\""), Day(t.date), Lit("\" mtime=\""), Num(t.mtime), Lit("\"")]
    + AttribTokens(Attr("description"), t.description)
    + AttribTokens(Attr("payee"), t.payee)
    + AttribTokens(Attr("checkno"), t.checkno)
    + NotesTokens(t.notes)
    + [Lit(">\n")]
  }

  /** One `split` element, with the formatted amount; a split without account has `account=""`. */
  function SplitTokens(sp: SplitValue, afmt: string): seq<Token>
  {
    [Lit("<split account=\""), Arg(if sp.account != null then sp.account.name else ""),
     Lit("\" amount=\""), Arg(afmt), Lit("\"")]
    + AttribTokens(Attr("memo"), sp.memo)
    + AttribTokens(Attr("reference"), sp.reference)
    + DateTokens(Attr("reconciliation_date"), sp.reconciliationDate)
    + [Lit(" />\n")]
  }

  /** `amount_format`: the amount's text, or nothing when it cannot be formatted. */
  function FormatAmount(env: Env, a: Amount): Option<string> { env.amountFormat(a) }

  predicate Formats(splits: seq<SplitValue>, env: Env)
  {
    forall i :: 0 <= i < |splits| ==> FormatAmount(env, splits[i].amount).Some?
  }

  /**
   * The `split` elements, in order. (`write_txn` never writes past a split
   * whose amount does not format; such a split contributes nothing here.)
   */
  function SplitsTokens(splits: seq<SplitValue>, env: Env): seq<Token>
    decreases |splits|
  {
    if |splits| == 0 then []
    else
      var last := splits[|splits| - 1];
      var afmt := FormatAmount(env, last.amount);
      SplitsTokens(splits[..|splits| - 1], env) + (if afmt.Some? then SplitTokens(last, afmt.value) else [])
  }

  /** The splits up to `i + 1` are those up to `i` and then split `i`, when its amount formats. */
  lemma SplitsSnoc(splits: seq<SplitValue>, i: nat, env: Env)
    requires i < |splits| && FormatAmount(env, splits[i].amount).Some?
    ensures SplitsTokens(splits[..i + 1], env) ==
      SplitsTokens(splits[..i], env) + SplitTokens(splits[i], FormatAmount(env, splits[i].amount).value)
  {
    assert splits[..i + 1][..i] == splits[..i];
  }

  /** The index of the first split whose amount does not format, or the number of splits. */
  function FirstUnformatted(splits: seq<SplitValue>, env: Env): (k: nat)
    ensures k <= |splits|
    decreases |splits|
  {
    if |splits| == 0 then 0
    else if FormatAmount(env, splits[0].amount).None? then 0
    else 1 + FirstUnformatted(splits[1..], env)
  }

  /** Every amount before `FirstUnformatted` formats, and the one at it does not. */
  lemma {:induction false} FirstUnformattedSpec(splits: seq<SplitValue>, env: Env)
    ensures forall i :: 0 <= i < FirstUnformatted(splits, env) ==> FormatAmount(env, splits[i].amount).Some?
    ensures FirstUnformatted(splits, env) < |splits| ==> FormatAmount(env, splits[FirstUnformatted(splits, env)].amount).None?
    decreases |splits|
  {
    if |splits| > 0 && FormatAmount(env, splits[0].amount).Some? {
      FirstUnformattedSpec(splits[1..], env);
      forall i | 0 < i < FirstUnformatted(splits, env)
        ensures splits[i] == splits[1..][i - 1]
      {
      }
    }
  }

  /** What `write_txn` writes: it stops, without the closing tag, at the first unformattable amount. */
  function TxnTokens(t: Transaction, env: Env): (r: seq<Token>)
    ensures Lit("</transaction>\n") in r <==> Formats(t.splits, env)
  {
    var k := FirstUnformatted(t.splits, env);
    FirstUnformattedSpec(t.splits, env);
    NoClosingInOpen(t);
    NoClosingInSplits(t.splits[..k], env);
    TxnOpen(t) + SplitsTokens(t.splits[..k], env) + (if k == |t.splits| then [Lit("</transaction>\n")] else [])
  }

  /** What `write_txn` returns. */
  function TxnCode(t: Transaction, env: Env): (r: int)
    ensures r == 0 || r == -2
    ensures r == 0 <==> Formats(t.splits, env)
  {
    FirstUnformattedSpec(t.splits, env);
    if FirstUnformatted(t.splits, env) == |t.splits| then 0 else -2
  }

  /**
   * `write_txn` returns 0 exactly when every amount formats, and then writes
   * every split and the closing tag; otherwise it returns -2 and the
   * transaction is left open.
   */
  lemma {:induction false} TxnOutcome(t: Transaction, env: Env)
    ensures TxnCode(t, env) == 0 <==> Formats(t.splits, env)
    ensures TxnCode(t, env) == 0 || TxnCode(t, env) == -2
    ensures TxnCode(t, env) == 0 ==> TxnTokens(t, env) == TxnOpen(t) + SplitsTokens(t.splits, env) + [Lit("</transaction>\n")]
    ensures TxnCode(t, env) == -2 ==> Lit("</transaction>\n") !in TxnTokens(t, env)
  {
    var k := FirstUnformatted(t.splits, env);
    FirstUnformattedSpec(t.splits, env);
    if k == |t.splits| {
      assert t.splits[..k] == t.splits;
    } else {
      NoClosingInOpen(t);
      NoClosingInSplits(t.splits[..k], env);
    }
  }

  lemma {:induction false} NoClosingInOpen(t: Transaction)
    ensures Lit("</transaction>\n") !in TxnOpen(t)
  {
  }

  lemma {:induction false} NoClosingInSplits(splits: seq<SplitValue>, env: Env)
    ensures Lit("</transaction>\n") !in SplitsTokens(splits, env)
    decreases |splits|
  {
    if |splits| > 0 {
      var p, last := splits[..|splits| - 1], splits[|splits| - 1];
      NoClosingInSplits(p, env);
      var afmt := FormatAmount(env, last.amount);
      if afmt.Some? {
        NoClosingInSplit(last, afmt.value);
      }
      assert SplitsTokens(splits, env) == SplitsTokens(p, env) + (if afmt.Some? then SplitTokens(last, afmt.value) else []);
    }
  }

  lemma {:induction false} NoClosingInSplit(sp: SplitValue, afmt: string)
    ensures Lit("</transaction>\n") !in SplitTokens(sp, afmt)
  {
  }

  predicate TxnDatesValid(t: Transaction)
  {
    ValidDate(t.date) && forall i :: 0 <= i < |t.splits| ==> ValidDate(t.splits[i].reconciliationDate)
  }

  lemma {:induction false} ValidAppend(a: seq<Token>, b: seq<Token>)
    requires TokensValid(a) && TokensValid(b)
    ensures TokensValid(a + b)
  {
    assert forall i :: 0 <= i < |a + b| ==> (a + b)[i] == if i < |a| then a[i] else b[i - |a|];
  }

  lemma AttribValid(f: Fmt, val: Option<string>)
    ensures TokensValid(AttribTokens(f, val))
  {
  }

  lemma SplitTokensValid(sp: SplitValue, afmt: string)
    requires ValidDate(sp.reconciliationDate)
    ensures TokensValid(SplitTokens(sp, afmt))
  {
    var head := [Lit("<split account=\""), Arg(if sp.account != null then sp.account.name else ""),
      Lit("\" amount=\""), Arg(afmt), Lit("\"")];
    var memo := AttribTokens(Attr("memo"), sp.memo);
    var ref := AttribTokens(Attr("reference"), sp.reference);
    var rec := DateTokens(Attr("reconciliation_date"), sp.reconciliationDate);
    AttribValid(Attr("memo"), sp.memo);
    AttribValid(Attr("reference"), sp.reference);
    assert TokensValid(rec);
    ValidAppend(head, memo);
    ValidAppend(head + memo, ref);
    ValidAppend(head + memo + ref, rec);
    ValidAppend(head + memo + ref + rec, [Lit(" />\n")]);
  }

  lemma TxnOpenValid(t: Transaction)
    requires ValidDate(t.date)
    ensures TokensValid(TxnOpen(t))
  {
    var head := [Lit("<transaction date=\""), Day(t.date), Lit("\" mtime=\""), Num(t.mtime), Lit("\"")];
    var d := AttribTokens(Attr("description"), t.description);
    var p := AttribTokens(Attr("payee"), t.payee);
    var c := AttribTokens(Attr("checkno"), t.checkno);
    var n := NotesTokens(t.notes);
    AttribValid(Attr("description"), t.description);
    AttribValid(Attr("payee"), t.payee);
    AttribValid(Attr("checkno"), t.checkno);
    if t.notes.Some? { AttribValid(Attr("notes"), Some(EscapeNewline(t.notes.value))); }
    ValidAppend(head, d);
    ValidAppend(head + d, p);
    ValidAppend(head + d + p, c);
    ValidAppend(head + d + p + c, n);
    ValidAppend(head + d + p + c + n, [Lit(">\n")]);
  }

  lemma {:induction false} SplitsTokensValid(splits: seq<SplitValue>, env: Env)
    requires forall i :: 0 <= i < |splits| ==> ValidDate(splits[i].reconciliationDate)
    ensures TokensValid(SplitsTokens(splits, env))
    decreases |splits|
  {
    if |splits| > 0 {
      var n := |splits| - 1;
      assert forall i :: 0 <= i < n ==> splits[..n][i] == splits[i];
      SplitsTokensValid(splits[..n], env);
      var afmt := FormatAmount(env, splits[n].amount);
      if afmt.Some? {
        var st := SplitTokens(splits[n], afmt.value);
        SplitTokensValid(splits[n], afmt.value);
        ValidAppend(SplitsTokens(splits[..n], env), st);
      } else {
        assert SplitsTokens(splits, env) == SplitsTokens(splits[..n], env) + [];
      }
    }
  }

  /** A transaction whose dates are valid days is written as tokens that all render. */
  lemma {:induction false} TxnTokensValid(t: Transaction, env: Env)
    requires TxnDatesValid(t)
    ensures TokensValid(TxnTokens(t, env))
  {
    var k := FirstUnformatted(t.splits, env);
    var p := t.splits[..k];
    assert forall i :: 0 <= i < |p| ==> p[i] == t.splits[i];
    SplitsTokensValid(p, env);
    var open := TxnOpen(t);
    TxnOpenValid(t);
    ValidAppend(open, SplitsTokens(p, env));
    ValidAppend(open + SplitsTokens(p, env), if k == |t.splits| then [Lit("</transaction>\n")] else []);
  }

  // ---------------------------------------------------------------------------
  // save_native

  function AccountTokens(a: Account): seq<Token>
  {
    [Lit("<account name=\""), Arg(a.name), Lit("\" currency=\""), Arg(a.currency.code),
     Lit("\" type=\""), Arg(a.typeName), Lit("\"")]
    + AttribTokens(Attr("group"), a.groupName)
    + AttribTokens(Attr("reference"), a.reference)
    + AttribTokens(Attr("account_number"), a.accountNumber)
    + (if a.inactive then [Lit(" inactive=\"y\"")] else [])
    + NotesTokens(a.notes)
    + [Lit(" />\n")]
  }

  /** The values `save_native` writes from the document properties. */
  datatype Properties = Properties(defaultCurrency: Currency, firstWeekday: int, aheadMonths: int, yearStartMonth: int)

  function HeaderTokens(documentId: string, p: Properties): seq<Token>
  {
    [Lit("<moneyguru-file document_id=\""), Arg(documentId), Lit("\">\n")]
    + [Lit("<properties default_currency=\""), Arg(p.defaultCurrency.code),
       Lit("\" first_weekday=\""), Num(p.firstWeekday), Lit("\" ahead_months=\""), Num(p.aheadMonths),
       Lit("\" year_start_month=\""), Num(p.yearStartMonth), Lit("\"/>\n")]
  }

  function AccountsTokens(accounts: seq<Account>): seq<Token>
    decreases |accounts|
  {
    if |accounts| == 0 then []
    else AccountsTokens(accounts[..|accounts| - 1]) + AccountTokens(accounts[|accounts| - 1])
  }

  /** The ledger transactions, each written in full. */
  function TxnsTokens(txns: seq<Transaction>, env: Env): seq<Token>
    decreases |txns|
  {
    if |txns| == 0 then []
    else TxnsTokens(txns[..|txns| - 1], env) + TxnTokens(txns[|txns| - 1], env)
  }

  /** The index of the first transaction `write_txn` fails on, or the number of transactions. */
  function FirstFailing(txns: seq<Transaction>, env: Env): (k: nat)
    ensures k <= |txns|
    decreases |txns|
  {
    if |txns| == 0 then 0
    else if TxnCode(txns[0], env) != 0 then 0
    else 1 + FirstFailing(txns[1..], env)
  }

  /** `write_txn` succeeds on every transaction before `FirstFailing` and fails on the one at it. */
  lemma {:induction false} FirstFailingSpec(txns: seq<Transaction>, env: Env)
    ensures forall i :: 0 <= i < FirstFailing(txns, env) ==> TxnCode(txns[i], env) == 0
    ensures FirstFailing(txns, env) < |txns| ==> TxnCode(txns[FirstFailing(txns, env)], env) != 0
    decreases |txns|
  {
    if |txns| > 0 && TxnCode(txns[0], env) == 0 {
      FirstFailingSpec(txns[1..], env);
      forall i | 0 < i < FirstFailing(txns, env)
        ensures txns[i] == txns[1..][i - 1]
      {
      }
    }
  }

  /** A schedule's fields, as `save_native` reads them. */
  datatype SavedSchedule = SavedSchedule(
    repeatType: RepeatType, every: nat, stop: Date, ref: Transaction,
    deletions: set<Date>, changes: map<Date, Transaction>)

  /** The object-to-value view of a schedule: the fields `save_native` reads. */
  function Record(sc: Schedule): (r: SavedSchedule)
    reads sc
    ensures r.ref == sc.ref && r.deletions == sc.deletions && r.changes == sc.globalChanges
  {
    SavedSchedule(sc.repeatType, sc.every, sc.stop, sc.ref, sc.deletions, sc.globalChanges)
  }

  /** `keys` lists the elements of `s`, each once: an iteration order of a hash table. */
  ghost predicate Listing(keys: seq<Date>, s: set<Date>)
  {
    (forall i, j :: 0 <= i < j < |keys| ==> keys[i] != keys[j])
    && (forall i :: 0 <= i < |keys| ==> keys[i] in s)
    && (forall k :: k in s ==> k in keys)
  }

  /** Part way through a visit of `s`: `keys` visited, each once, and `remaining` still to go. */
  ghost predicate Visiting(keys: seq<Date>, remaining: set<Date>, s: set<Date>)
  {
    (forall i, j :: 0 <= i < j < |keys| ==> keys[i] != keys[j])
    && (forall k :: k in s <==> k in remaining || k in keys)
    && (forall k :: k in remaining ==> k !in keys)
  }

  /** Visiting one more element keeps the visit going. */
  lemma VisitStep(keys: seq<Date>, remaining: set<Date>, s: set<Date>, k: Date)
    requires Visiting(keys, remaining, s) && k in remaining
    ensures Visiting(keys + [k], remaining - {k}, s)
  {
    var keys' := keys + [k];
    forall i, j | 0 <= i < j < |keys'| ensures keys'[i] != keys'[j] {
      if j == |keys| {
        assert keys'[i] == keys[i];
      } else {
        assert keys'[i] == keys[i] && keys'[j] == keys[j];
      }
    }
  }

  /** One bodiless `exception` element per deletion key, in the order given. */
  function ExceptionsTokens(keys: seq<Date>): seq<Token>
    decreases |keys|
  {
    if |keys| == 0 then []
    else ExceptionsTokens(keys[..|keys| - 1]) + DateTokens(Fmt("<exception date=\"", "\" />\n"), keys[|keys| - 1])
  }

  function ChangeTokens(k: Date, txn: Transaction, env: Env): seq<Token>
  {
    DateTokens(Fmt("<change date=\"", "\">\n"), k) + TxnTokens(txn, env) + [Lit("</change>\n")]
  }

  /** One `change` element wrapping the changed transaction per global change, in the order given. */
  function ChangesTokens(keys: seq<Date>, changes: map<Date, Transaction>, env: Env): seq<Token>
    requires forall i :: 0 <= i < |keys| ==> keys[i] in changes
    decreases |keys|
  {
    if |keys| == 0 then []
    else
      var k := keys[|keys| - 1];
      ChangesTokens(keys[..|keys| - 1], changes, env) + ChangeTokens(k, changes[k], env)
  }

  /** One `recurrence` element, with the tables visited in the orders `dels` and `keys`. */
  function ScheduleTokens(r: SavedSchedule, dels: seq<Date>, keys: seq<Date>, env: Env): seq<Token>
    requires forall i :: 0 <= i < |keys| ==> keys[i] in r.changes
  {
    [Lit("<recurrence type=\""), Arg(RepeatTypeName(r.repeatType)), Lit("\" every=\""), Num(r.every), Lit("\"")]
    + DateTokens(Attr("stop"), r.stop) + [Lit(">\n")]
    + TxnTokens(r.ref, env)
    + ExceptionsTokens(dels)
    + ChangesTokens(keys, r.changes, env)
    + [Lit("</recurrence>\n")]
  }

  /** The iteration orders are listings of each schedule's tables. */
  ghost predicate Orders(rs: seq<SavedSchedule>, dels: seq<seq<Date>>, keys: seq<seq<Date>>)
  {
    |dels| == |rs| && |keys| == |rs|
    && forall i :: 0 <= i < |rs| ==> Listing(dels[i], rs[i].deletions) && Listing(keys[i], rs[i].changes.Keys)
  }

  /** The `recurrence` elements of the schedules, with the table orders of each. */
  ghost function SchedulesTokens(rs: seq<SavedSchedule>, dels: seq<seq<Date>>, keys: seq<seq<Date>>, env: Env): seq<Token>
    requires Orders(rs, dels, keys)
    decreases |rs|
  {
    if |rs| == 0 then []
    else
      var n := |rs| - 1;
      SchedulesTokens(rs[..n], dels[..n], keys[..n], env) + ScheduleTokens(rs[n], dels[n], keys[n], env)
  }

  /** A listing holds every element of its set once, so it is as long as the set. */
  lemma {:induction false} ListingSize(keys: seq<Date>, s: set<Date>)
    requires Listing(keys, s)
    ensures |keys| == |s|
    decreases |keys|
  {
    if |keys| > 0 {
      var n := |keys| - 1;
      var last := keys[n];
      var init := keys[..n];
      assert last in s;
      assert Listing(init, s - {last}) by {
        forall i | 0 <= i < |init|
          ensures init[i] in s - {last}
        {
          assert init[i] == keys[i];
        }
        forall k | k in s - {last}
          ensures k in init
        {
          assert k in keys;
          var i :| 0 <= i < |keys| && keys[i] == k;
          assert i < n;
          assert init[i] == k;
        }
      }
      ListingSize(init, s - {last});
    } else {
      assert forall k :: k !in s;
      assert s == {};
    }
  }

  /** Each deletion is written as exactly one `exception` element, and nothing else is. */
  lemma {:induction false} ExceptionsOfListing(dels: seq<Date>, s: set<Date>, d: Date)
    requires Listing(dels, s) && d != NoDate
    ensures d in s <==> Lit("<exception date=\"") in ExceptionsTokens(dels) && Day(d) in ExceptionsTokens(dels)
    ensures |dels| == |s|
  {
    ListingSize(dels, s);
    ExceptionsDays(dels, d);
  }

  lemma {:induction false} ExceptionsDays(dels: seq<Date>, d: Date)
    requires d != NoDate
    ensures Day(d) in ExceptionsTokens(dels) <==> d in dels
    ensures d in dels ==> Lit("<exception date=\"") in ExceptionsTokens(dels)
    decreases |dels|
  {
    if |dels| > 0 {
      var init := dels[..|dels| - 1];
      ExceptionsDays(init, d);
      assert dels == init + [dels[|dels| - 1]];
    }
  }

  // ---------------------------------------------------------------------------
  // The file and the writers

  /** The open file: every token written so far. */
  class OutFile {
    var written: seq<Token>

    constructor ()
      ensures written == []
    {
      written := [];
    }

    /** The characters in the file. */
    function Text(env: Env): string
      reads this
      requires TokensValid(written)
    {
      Render(written, env)
    }

    /** `fwrite` of one formatted string. */
    method Write(ts: seq<Token>)
      modifies this
      ensures written == old(written) + ts
    {
      written := written + ts;
    }

    /** `fopen(filename, "w")` truncates the file. */
    method Truncate()
      modifies this
      ensures written == []
    {
      written := [];
    }
  }

  /** After `w` was written since `t0`, writing `x` leaves `w + x` written since `t0`. */
  lemma Appended(t0: seq<Token>, w: seq<Token>, x: seq<Token>)
    ensures t0 + w + x == t0 + (w + x)
  {
  }

  /** `setattrib`. */
  method SetAttrib(fp: OutFile, f: Fmt, val: Option<string>)
    modifies fp
    ensures fp.written == old(fp.written) + AttribTokens(f, val)
  {
    if val.Some? {
      fp.Write(Markup(f, val.value));
    }
  }

  /** `writedate`. */
  method WriteDate(fp: OutFile, f: Fmt, val: Date)
    modifies fp
    ensures fp.written == old(fp.written) + DateTokens(f, val)
  {
    if val != NoDate {
      fp.Write([Lit(f.before), Day(val), Lit(f.after)]);
    }
  }

  /** The notes attribute of a transaction or an account. */
  method WriteNotes(fp: OutFile, notes: Option<string>)
    modifies fp
    ensures fp.written == old(fp.written) + NotesTokens(notes)
  {
    if notes.Some? {
      var escaped := EscapeNewline(notes.value);
      SetAttrib(fp, Attr("notes"), Some(escaped));
    }
  }

  /** The opening tag of `write_txn`. */
  method WriteTxnOpen(fp: OutFile, t: Transaction)
    modifies fp
    ensures fp.written == old(fp.written) + TxnOpen(t)
  {
    ghost var t0 := fp.written;
    fp.Write([Lit("<transaction date=\""), Day(t.date), Lit("\" mtime=\""), Num(t.mtime), Lit("\"")]);
    ghost var w := [Lit("<transaction date=\""), Day(t.date), Lit("\" mtime=\""), Num(t.mtime), Lit("\"")];
    SetAttrib(fp, Attr("description"), t.description);
    Appended(t0, w, AttribTokens(Attr("description"), t.description));
    w := w + AttribTokens(Attr("description"), t.description);
    SetAttrib(fp, Attr("payee"), t.payee);
    Appended(t0, w, AttribTokens(Attr("payee"), t.payee));
    w := w + AttribTokens(Attr("payee"), t.payee);
    SetAttrib(fp, Attr("checkno"), t.checkno);
    Appended(t0, w, AttribTokens(Attr("checkno"), t.checkno));
    w := w + AttribTokens(Attr("checkno"), t.checkno);
    WriteNotes(fp, t.notes);
    Appended(t0, w, NotesTokens(t.notes));
    w := w + NotesTokens(t.notes);
    fp.Write([Lit(">\n")]);
    Appended(t0, w, [Lit(">\n")]);
    w := w + [Lit(">\n")];
  }

  /** One `split` element of `write_txn`. */
  method WriteSplit(fp: OutFile, sp: SplitValue, afmt: string)
    modifies fp
    ensures fp.written == old(fp.written) + SplitTokens(sp, afmt)
  {
    ghost var t0 := fp.written;
    var aname := "";
    if sp.account != null {
      aname := sp.account.name;
    }
    fp.Write([Lit("<split account=\""), Arg(aname), Lit("\" amount=\""), Arg(afmt), Lit("\"")]);
    ghost var w := [Lit("<split account=\""), Arg(aname), Lit("\" amount=\""), Arg(afmt), Lit("\"")];
    SetAttrib(fp, Attr("memo"), sp.memo);
    Appended(t0, w, AttribTokens(Attr("memo"), sp.memo));
    w := w + AttribTokens(Attr("memo"), sp.memo);
    SetAttrib(fp, Attr("reference"), sp.reference);
    Appended(t0, w, AttribTokens(Attr("reference"), sp.reference));
    w := w + AttribTokens(Attr("reference"), sp.reference);
    WriteDate(fp, Attr("reconciliation_date"), sp.reconciliationDate);
    Appended(t0, w, DateTokens(Attr("reconciliation_date"), sp.reconciliationDate));
    w := w + DateTokens(Attr("reconciliation_date"), sp.reconciliationDate);
    fp.Write([Lit(" />\n")]);
    Appended(t0, w, [Lit(" />\n")]);
    w := w + [Lit(" />\n")];
  }

  /** `write_txn`. */
  method WriteTxn(fp: OutFile, t: Transaction, env: Env) returns (res: int)
    modifies fp
    ensures fp.written == old(fp.written) + TxnTokens(t, env)
    ensures res == TxnCode(t, env)
  {
    ghost var t0 := fp.written;
    WriteTxnOpen(fp, t);
    ghost var w := TxnOpen(t);
    ghost var k := FirstUnformatted(t.splits, env);
    FirstUnformattedSpec(t.splits, env);
    var i := 0;
    while i < |t.splits|
      invariant 0 <= i <= k
      invariant fp.written == t0 + w + SplitsTokens(t.splits[..i], env)
    {
      var sp := t.splits[i];
      var afmt := FormatAmount(env, sp.amount);
      if afmt.None? {
        assert i == k;
        Appended(t0, w, SplitsTokens(t.splits[..i], env));
        w := w + SplitsTokens(t.splits[..i], env);
        assert w + [] == w;
        return -2;
      }
      assert i < k;
      WriteSplit(fp, sp, afmt.value);
      Appended(t0 + w, SplitsTokens(t.splits[..i], env), SplitTokens(sp, afmt.value));
      SplitsSnoc(t.splits, i, env);
      i := i + 1;
    }
    assert t.splits[..i] == t.splits;
    Appended(t0, w, SplitsTokens(t.splits, env));
    w := w + SplitsTokens(t.splits, env);
    fp.Write([Lit("</transaction>\n")]);
    Appended(t0, w, [Lit("</transaction>\n")]);
    w := w + [Lit("</transaction>\n")];
    return 0;
  }

  /** One `account` element. */
  method WriteAccount(fp: OutFile, a: Account)
    modifies fp
    ensures fp.written == old(fp.written) + AccountTokens(a)
  {
    ghost var t0 := fp.written;
    fp.Write([Lit("<account name=\""), Arg(a.name), Lit("\" currency=\""), Arg(a.currency.code),
              Lit("\" type=\""), Arg(a.typeName), Lit("\"")]);
    ghost var w := [Lit("<account name=\""), Arg(a.name), Lit("\" currency=\""), Arg(a.currency.code),
                    Lit("\" type=\""), Arg(a.typeName), Lit("\"")];
    SetAttrib(fp, Attr("group"), a.groupName);
    Appended(t0, w, AttribTokens(Attr("group"), a.groupName));
    w := w + AttribTokens(Attr("group"), a.groupName);
    SetAttrib(fp, Attr("reference"), a.reference);
    Appended(t0, w, AttribTokens(Attr("reference"), a.reference));
    w := w + AttribTokens(Attr("reference"), a.reference);
    SetAttrib(fp, Attr("account_number"), a.accountNumber);
    Appended(t0, w, AttribTokens(Attr("account_number"), a.accountNumber));
    w := w + AttribTokens(Attr("account_number"), a.accountNumber);
    if a.inactive {
      fp.Write([Lit(" inactive=\"y\"")]);
    }
    Appended(t0, w, if a.inactive then [Lit(" inactive=\"y\"")] else []);
    w := w + if a.inactive then [Lit(" inactive=\"y\"")] else [];
    WriteNotes(fp, a.notes);
    Appended(t0, w, NotesTokens(a.notes));
    w := w + NotesTokens(a.notes);
    fp.Write([Lit(" />\n")]);
    Appended(t0, w, [Lit(" />\n")]);
    w := w + [Lit(" />\n")];
  }

  /** The deletion table, visited in an unspecified order: each key once. */
  method WriteExceptions(fp: OutFile, r: SavedSchedule) returns (ghost dels: seq<Date>)
    modifies fp
    ensures Listing(dels, r.deletions)
    ensures fp.written == old(fp.written) + ExceptionsTokens(dels)
  {
    ghost var t0 := fp.written;
    var remaining := r.deletions;
    dels := [];
    while remaining != {}
      invariant Visiting(dels, remaining, r.deletions)
      invariant fp.written == t0 + ExceptionsTokens(dels)
      decreases |remaining|
    {
      NonEmpty(remaining);
      var k :| k in remaining;
      WriteDate(fp, Fmt("<exception date=\"", "\" />\n"), k);
      Appended(t0, ExceptionsTokens(dels), DateTokens(Fmt("<exception date=\"", "\" />\n"), k));
      VisitStep(dels, remaining, r.deletions, k);
      assert (dels + [k])[..|dels|] == dels;
      dels := dels + [k];
      remaining := remaining - {k};
    }
  }

  /** One `change` element. */
  method WriteChange(fp: OutFile, k: Date, txn: Transaction, env: Env)
    modifies fp
    ensures fp.written == old(fp.written) + ChangeTokens(k, txn, env)
  {
    ghost var t0 := fp.written;
    WriteDate(fp, Fmt("<change date=\"", "\">\n"), k);
    ghost var w := DateTokens(Fmt("<change date=\"", "\">\n"), k);
    var _ := WriteTxn(fp, txn, env);
    Appended(t0, w, TxnTokens(txn, env));
    w := w + TxnTokens(txn, env);
    fp.Write([Lit("</change>\n")]);
    Appended(t0, w, [Lit("</change>\n")]);
    w := w + [Lit("</change>\n")];
  }

  /** The global-change table, visited in an unspecified order: each key once. */
  method WriteChanges(fp: OutFile, r: SavedSchedule, env: Env) returns (ghost keys: seq<Date>)
    modifies fp
    ensures Listing(keys, r.changes.Keys)
    ensures forall i :: 0 <= i < |keys| ==> keys[i] in r.changes
    ensures fp.written == old(fp.written) + ChangesTokens(keys, r.changes, env)
  {
    ghost var t0 := fp.written;
    var remaining := r.changes.Keys;
    keys := [];
    while remaining != {}
      invariant Visiting(keys, remaining, r.changes.Keys)
      invariant forall i :: 0 <= i < |keys| ==> keys[i] in r.changes
      invariant fp.written == t0 + ChangesTokens(keys, r.changes, env)
      decreases |remaining|
    {
      NonEmpty(remaining);
      var k :| k in remaining;
      WriteChange(fp, k, r.changes[k], env);
      Appended(t0, ChangesTokens(keys, r.changes, env), ChangeTokens(k, r.changes[k], env));
      VisitStep(keys, remaining, r.changes.Keys, k);
      assert (keys + [k])[..|keys|] == keys;
      keys := keys + [k];
      remaining := remaining - {k};
    }
  }

  /** One `recurrence` element; `write_txn`'s result is not looked at here. */
  method WriteSchedule(fp: OutFile, r: SavedSchedule, env: Env) returns (ghost dels: seq<Date>, ghost keys: seq<Date>)
    modifies fp
    ensures Listing(dels, r.deletions) && Listing(keys, r.changes.Keys)
    ensures forall i :: 0 <= i < |keys| ==> keys[i] in r.changes
    ensures fp.written == old(fp.written) + ScheduleTokens(r, dels, keys, env)
  {
    ghost var t0 := fp.written;
    fp.Write([Lit("<recurrence type=\""), Arg(RepeatTypeName(r.repeatType)), Lit("\" every=\""), Num(r.every), Lit("\"")]);
    ghost var w := [Lit("<recurrence type=\""), Arg(RepeatTypeName(r.repeatType)), Lit("\" every=\""), Num(r.every), Lit("\"")];
    WriteDate(fp, Attr("stop"), r.stop);
    Appended(t0, w, DateTokens(Attr("stop"), r.stop));
    w := w + DateTokens(Attr("stop"), r.stop);
    fp.Write([Lit(">\n")]);
    Appended(t0, w, [Lit(">\n")]);
    w := w + [Lit(">\n")];
    var _ := WriteTxn(fp, r.ref, env);
    Appended(t0, w, TxnTokens(r.ref, env));
    w := w + TxnTokens(r.ref, env);
    dels := WriteExceptions(fp, r);
    Appended(t0, w, ExceptionsTokens(dels));
    w := w + ExceptionsTokens(dels);
    keys := WriteChanges(fp, r, env);
    Appended(t0, w, ChangesTokens(keys, r.changes, env));
    w := w + ChangesTokens(keys, r.changes, env);
    fp.Write([Lit("</recurrence>\n")]);
    Appended(t0, w, [Lit("</recurrence>\n")]);
    w := w + [Lit("</recurrence>\n")];
  }

  /** The `account` elements, in list order. */
  method WriteAccounts(fp: OutFile, accounts: seq<Account>)
    modifies fp
    ensures fp.written == old(fp.written) + AccountsTokens(accounts)
  {
    ghost var t0 := fp.written;
    for i := 0 to |accounts|
      invariant fp.written == t0 + AccountsTokens(accounts[..i])
    {
      WriteAccount(fp, accounts[i]);
      Appended(t0, AccountsTokens(accounts[..i]), AccountTokens(accounts[i]));
      assert accounts[..i + 1][..i] == accounts[..i];
    }
    assert accounts[..|accounts|] == accounts;
  }

  /** The ledger transactions, up to and including the first one `write_txn` fails on. */
  method WriteTxns(fp: OutFile, txns: seq<Transaction>, env: Env) returns (res: int)
    modifies fp
    ensures var k := FirstFailing(txns, env);
      if k < |txns| then
        res == TxnCode(txns[k], env) && res != 0 && fp.written == old(fp.written) + TxnsTokens(txns[..k], env) + TxnTokens(txns[k], env)
      else
        res == 0 && fp.written == old(fp.written) + TxnsTokens(txns, env)
  {
    ghost var t0 := fp.written;
    ghost var k := FirstFailing(txns, env);
    FirstFailingSpec(txns, env);
    var i := 0;
    while i < |txns|
      invariant 0 <= i <= k
      invariant fp.written == t0 + TxnsTokens(txns[..i], env)
    {
      var code := WriteTxn(fp, txns[i], env);
      if code != 0 {
        assert i == k;
        return code;
      }
      assert i < k;
      assert txns[..i + 1][..i] == txns[..i];
      assert txns[..i + 1][i] == txns[i];
      Appended(t0, TxnsTokens(txns[..i], env), TxnTokens(txns[i], env));
      i := i + 1;
    }
    assert txns[..i] == txns;
    return 0;
  }

  /** The `recurrence` elements, in list order. */
  method WriteSchedules(fp: OutFile, rs: seq<SavedSchedule>, env: Env) returns (ghost dels: seq<seq<Date>>, ghost keys: seq<seq<Date>>)
    modifies fp
    ensures Orders(rs, dels, keys)
    ensures fp.written == old(fp.written) + SchedulesTokens(rs, dels, keys, env)
  {
    ghost var t0 := fp.written;
    dels, keys := [], [];
    for i := 0 to |rs|
      invariant Orders(rs[..i], dels, keys)
      invariant fp.written == t0 + SchedulesTokens(rs[..i], dels, keys, env)
    {
      var d, k := WriteSchedule(fp, rs[i], env);
      Appended(t0, SchedulesTokens(rs[..i], dels, keys, env), ScheduleTokens(rs[i], d, k, env));
      OrdersStep(rs, i, dels, keys, d, k, env);
      dels, keys := dels + [d], keys + [k];
    }
    assert rs[..|rs|] == rs;
  }

  lemma {:induction false} OrdersStep(rs: seq<SavedSchedule>, i: nat, dels: seq<seq<Date>>, keys: seq<seq<Date>>, d: seq<Date>, k: seq<Date>, env: Env)
    requires i < |rs| && Orders(rs[..i], dels, keys)
    requires Listing(d, rs[i].deletions) && Listing(k, rs[i].changes.Keys)
    ensures Orders(rs[..i + 1], dels + [d], keys + [k])
    ensures (rs[..i + 1])[..i] == rs[..i] && (dels + [d])[..i] == dels && (keys + [k])[..i] == keys
    ensures SchedulesTokens(rs[..i + 1], dels + [d], keys + [k], env) ==
      SchedulesTokens(rs[..i], dels, keys, env) + ScheduleTokens(rs[i], d, k, env)
  {
    var rs', dels', keys' := rs[..i + 1], dels + [d], keys + [k];
    assert rs'[..i] == rs[..i];
    assert dels'[..i] == dels;
    assert keys'[..i] == keys;
    assert Orders(rs', dels', keys') by {
      forall j | 0 <= j < |rs'|
        ensures Listing(dels'[j], rs'[j].deletions) && Listing(keys'[j], rs'[j].changes.Keys)
      {
        if j < i {
          assert rs'[j] == rs[..i][j] && dels'[j] == dels[j] && keys'[j] == keys[j];
        }
      }
    }
  }

  /**
   * `save_native`. `fileOpened` is whether `fopen` succeeded. The first
   * ledger transaction `write_txn` fails on ends the save with its code, the
   * file left as written so far; otherwise every schedule follows and the
   * document is closed.
   */
  method SaveNative(fileOpened: bool, fp: OutFile, documentId: string, properties: Properties,
                    accounts: seq<Account>, txns: seq<Transaction>, schedules: seq<SavedSchedule>, env: Env)
    returns (res: int, ghost dels: seq<seq<Date>>, ghost keys: seq<seq<Date>>)
    modifies fp
    ensures !fileOpened ==> res == -1 && fp.written == old(fp.written)
    ensures fileOpened ==>
      var k := FirstFailing(txns, env);
      var head := HeaderTokens(documentId, properties) + AccountsTokens(accounts) + TxnsTokens(txns[..k], env);
      if k < |txns| then
        res == TxnCode(txns[k], env) && res != 0 && fp.written == head + TxnTokens(txns[k], env)
      else
        res == 0 && Orders(schedules, dels, keys)
        && fp.written == head + SchedulesTokens(schedules, dels, keys, env) + [Lit("</moneyguru-file>")]
  {
    dels, keys := [], [];
    if !fileOpened {
      return -1, dels, keys;
    }
    fp.Truncate();
    fp.Write([Lit("<moneyguru-file document_id=\""), Arg(documentId), Lit("\">\n")]);
    fp.Write([Lit("<properties default_currency=\""), Arg(properties.defaultCurrency.code),
              Lit("\" first_weekday=\""), Num(properties.firstWeekday), Lit("\" ahead_months=\""), Num(properties.aheadMonths),
              Lit("\" year_start_month=\""), Num(properties.yearStartMonth), Lit("\"/>\n")]);
    ghost var w := HeaderTokens(documentId, properties);
    assert fp.written == w;
    WriteAccounts(fp, accounts);
    w := w + AccountsTokens(accounts);
    var failed := WriteTxns(fp, txns, env);
    ghost var k := FirstFailing(txns, env);
    if failed != 0 {
      return failed, dels, keys;
    }
    assert txns[..k] == txns;
    w := w + TxnsTokens(txns[..k], env);
    dels, keys := WriteSchedules(fp, schedules, env);
    fp.Write([Lit("</moneyguru-file>")]);
    res := 0;
  }
}
