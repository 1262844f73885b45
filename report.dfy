/**
 * The text report that `record` prints: "Totals: ", then "k = v" followed by
 * a tab for each key of `totals` in insertion order, then a newline.  Also a
 * reader for that text, proving that the report determines the totals.
 */
module Recording {
  import opened Wrappers
  import opened Accumulator

  // ------------------------------------------------------------------
  // Python's str() of an int, and its inverse

  predicate IsDigit(c: char)
  {
    '0' <= c <= '9'
  }

  predicate AllDigits(s: string)
  {
    forall i :: 0 <= i < |s| ==> IsDigit(s[i])
  }

  function DigitChar(d: nat): (c: char)
    requires d < 10
  {
    ('0' as int + d) as char
  }

  function NatToString(n: nat): (s: string)
    ensures |s| > 0 && AllDigits(s)
    ensures s[0] == '0' ==> n == 0
  {
    if n < 10 then [DigitChar(n)] else NatToString(n / 10) + [DigitChar(n % 10)]
  }

  /** Decimal digits, with a leading '-' for a negative number and no leading zero. */
  function IntToString(i: int): (s: string)
    ensures |s| > 0
    ensures s[0] == '-' <==> i < 0
    ensures AllDigits(s[1..]) && (i >= 0 ==> AllDigits(s))
    ensures i >= 0 && |s| > 1 ==> s[0] != '0'
    ensures i < 0 ==> |s| > 1 && s[1] != '0'
  {
    if i < 0 then "-" + NatToString(-i) else NatToString(i)
  }

  /** The number a string of decimal digits denotes. */
  function DigitsValue(s: string): nat
  {
    if s == [] then 0
    else
      var n := |s| - 1;
      var d := s[n] as int - '0' as int;
      DigitsValue(s[..n]) * 10 + (if 0 <= d then d else 0)
  }

  function ParseInt(s: string): Option<int>
  {
    if |s| > 0 && AllDigits(s) then Some(DigitsValue(s))
    else if |s| > 1 && s[0] == '-' && AllDigits(s[1..]) then Some(-(DigitsValue(s[1..]) as int))
    else None
  }

  lemma {:induction false} NatToStringDigits(n: nat)
    ensures |NatToString(n)| > 0 && AllDigits(NatToString(n))
    ensures DigitsValue(NatToString(n)) == n
    decreases n
  {
    if n >= 10 {
      NatToStringDigits(n / 10);
      var s := NatToString(n / 10);
      assert (s + [DigitChar(n % 10)])[..|s|] == s;
    }
  }

  /** Reading back the decimal text of any integer gives that integer. */
  lemma IntToStringRoundTrip(i: int)
    ensures ParseInt(IntToString(i)) == Some(i)
  {
    if i < 0 {
      NatToStringDigits(-i);
      var s := NatToString(-i);
      assert ("-" + s)[1..] == s;
      assert !IsDigit(("-" + s)[0]);
    } else {
      NatToStringDigits(i);
    }
  }

  /** The decimal text of an integer holds no space and no tab. */
  lemma IntToStringPlain(i: int)
    ensures NoChar(IntToString(i), ' ') && NoChar(IntToString(i), '\t')
  {
    if i < 0 {
      NatToStringDigits(-i);
      var s := NatToString(-i);
      assert forall j :: 0 <= j < |s| ==> IsDigit(s[j]);
      assert forall j :: 1 <= j < |"-" + s| ==> ("-" + s)[j] == s[j - 1];
    } else {
      NatToStringDigits(i);
    }
  }

  // ------------------------------------------------------------------
  // The report

  function Entry(key: string, value: int): string
  {
    key + " = " + IntToString(value) + "\t"
  }

  /** The entries for the keys of `order`, in that order. */
  function Entries(a: Accum, order: seq<string>): string
  {
    if order == [] then ""
    else
      var n := |order| - 1;
      Entries(a, order[..n]) + Entry(order[n], Tot(a, order[n]))
  }

  /** What `record` prints for state `a`. */
  function Report(a: Accum): (r: string)
    ensures |r| >= 9 && r[..8] == "Totals: " && r[|r| - 1] == '\n'
    ensures a.totalsOrder == [] ==> r == "Totals: \n"
  {
    "Totals: " + Entries(a, a.totalsOrder) + "\n"
  }

  /** The (key, total) pairs a report lists, in iteration order of `totals`. */
  function TotalsItems(a: Accum, order: seq<string>): (items: seq<(string, int)>)
    ensures |items| == |order|
    ensures forall i :: 0 <= i < |order| ==> items[i] == (order[i], Tot(a, order[i]))
  {
    seq(|order|, i requires 0 <= i < |order| => (order[i], Tot(a, order[i])))
  }

  // ------------------------------------------------------------------
  // Reading a report back

  /**
   * A key that a report can be read back unambiguously for: one without a
   * tab, since a tab inside a key reads as the end of an entry.
   */
  predicate PlainKey(k: string)
  {
    NoChar(k, '\t')
  }

  predicate NoChar(s: string, c: char)
  {
    forall i :: 0 <= i < |s| ==> s[i] != c
  }

  /** The index of the last `c` in `s`, or -1. */
  function LastIndexOf(s: string, c: char): (r: int)
    ensures -1 <= r < |s|
  {
    if s == [] then -1
    else if s[|s| - 1] == c then |s| - 1
    else LastIndexOf(s[..|s| - 1], c)
  }

  /**
   * Reads "k = v" (without the tab). The value's text holds no space, so the
   * entry splits at its last space, whatever spaces the key holds.
   */
  function ParseEntry(e: string): Option<(string, int)>
  {
    var p := LastIndexOf(e, ' ');
    if p >= 2 && e[p - 2..p + 1] == " = " then
      match ParseInt(e[p + 1..])
      case Some(v) => Some((e[..p - 2], v))
      case None => None
    else None
  }

  /**
   * Splits a non-empty run of tab-terminated entries into the entries before
   * the last one and the text of the last one (without its tab).
   */
  function SplitLast(body: string): (r: (string, string))
    requires |body| > 0
    ensures |r.0| < |body|
  {
    var inner := body[..|body| - 1];
    var start := LastIndexOf(inner, '\t') + 1;
    (body[..start], inner[start..])
  }

  /** Reads a sequence of tab-terminated entries, from the last one back. */
  function ParseEntries(body: string): Option<seq<(string, int)>>
    decreases |body|
  {
    if body == [] then Some([])
    else if body[|body| - 1] != '\t' then None
    else
      var (rest, last) := SplitLast(body);
      match (ParseEntries(rest), ParseEntry(last))
      case (Some(items), Some(item)) => Some(items + [item])
      case _ => None
  }

  function ParseReport(s: string): Option<seq<(string, int)>>
  {
    if |s| >= 9 && s[..8] == "Totals: " && s[|s| - 1] == '\n' then ParseEntries(s[8..|s| - 1])
    else None
  }

  lemma {:induction false} LastIndexOfSkips(x: string, y: string, c: char)
    requires NoChar(y, c)
    ensures LastIndexOf(x + y, c) == LastIndexOf(x, c)
    decreases |y|
  {
    if y == [] {
      assert x + y == x;
    } else {
      assert (x + y)[..|x + y| - 1] == x + y[..|y| - 1];
      LastIndexOfSkips(x, y[..|y| - 1], c);
    }
  }

  lemma EntriesEmptyOrTab(a: Accum, order: seq<string>)
    ensures Entries(a, order) == [] || Entries(a, order)[|Entries(a, order)| - 1] == '\t'
  {
  }

  /** An entry of a plain key reads back as its key and value. */
  lemma ParseEntryRoundTrip(k: string, v: int)
    requires PlainKey(k)
    ensures ParseEntry(k + " = " + IntToString(v)) == Some((k, v))
  {
    var x, t := k + " = ", IntToString(v);
    var e := x + t;
    IntToStringPlain(v);
    LastIndexOfSkips(x, t, ' ');
    assert LastIndexOf(x, ' ') == |k| + 2;
    assert e[|k|..|k| + 3] == " = ";
    assert e[|k| + 3..] == IntToString(v);
    assert e[..|k|] == k;
    IntToStringRoundTrip(v);
  }

  lemma SplitLastSnoc(prefix: string, e: string)
    requires prefix == [] || prefix[|prefix| - 1] == '\t'
    requires NoChar(e, '\t')
    ensures SplitLast(prefix + e + "\t") == (prefix, e)
  {
    var body := prefix + e + "\t";
    assert body[..|body| - 1] == prefix + e;
    LastIndexOfSkips(prefix, e, '\t');
    assert (prefix + e)[|prefix|..] == e;
    assert body[..|prefix|] == prefix;
  }

  /** Reading one more tab-terminated entry after a run of entries. */
  lemma ParseEntriesSnoc(prefix: string, e: string, item: (string, int), items: seq<(string, int)>)
    requires prefix == [] || prefix[|prefix| - 1] == '\t'
    requires NoChar(e, '\t')
    requires ParseEntry(e) == Some(item)
    requires ParseEntries(prefix) == Some(items)
    ensures ParseEntries(prefix + e + "\t") == Some(items + [item])
  {
    SplitLastSnoc(prefix, e);
  }

  lemma EntryTextPlain(k: string, v: int)
    requires PlainKey(k)
    ensures NoChar(k + " = " + IntToString(v), '\t')
  {
    IntToStringPlain(v);
    var t := IntToString(v);
    var e := k + " = " + t;
    forall j | 0 <= j < |e| ensures e[j] != '\t' {
      if j < |k| { assert e[j] == k[j]; }
      else if j < |k| + 3 { assert e[j] == " = "[j - |k|]; }
      else { assert e[j] == t[j - |k| - 3]; }
    }
  }

  /** The entries of a prefix of the order, one key longer. */
  lemma EntriesPrefixStep(a: Accum, order: seq<string>, i: nat)
    requires i < |order|
    ensures Entries(a, order[..i + 1]) == Entries(a, order[..i]) + Entry(order[i], Tot(a, order[i]))
  {
    assert order[..i + 1][..i] == order[..i];
  }

  lemma EntriesSnoc(a: Accum, order: seq<string>)
    requires order != []
    ensures var n := |order| - 1;
      Entries(a, order) == Entries(a, order[..n]) + (order[n] + " = " + IntToString(Tot(a, order[n]))) + "\t"
  {
    var n := |order| - 1;
    var k, t := order[n], IntToString(Tot(a, order[n]));
    var p := Entries(a, order[..n]);
    assert Entries(a, order) == p + Entry(k, Tot(a, k));
    assert p + (k + " = " + t + "\t") == p + (k + " = " + t) + "\t";
  }

  lemma TotalsItemsSnoc(a: Accum, order: seq<string>)
    requires order != []
    ensures var n := |order| - 1;
      TotalsItems(a, order) == TotalsItems(a, order[..n]) + [(order[n], Tot(a, order[n]))]
  {
    var n := |order| - 1;
    var x, y := TotalsItems(a, order), TotalsItems(a, order[..n]) + [(order[n], Tot(a, order[n]))];
    assert |x| == |y|;
    forall i | 0 <= i < |x| ensures x[i] == y[i] {
      if i < n { assert order[..n][i] == order[i]; }
    }
  }

  /** The entries of plain keys read back as the keys and their totals. */
  lemma {:induction false} ParseEntriesRoundTrip(a: Accum, order: seq<string>)
    requires forall i :: 0 <= i < |order| ==> PlainKey(order[i])
    ensures ParseEntries(Entries(a, order)) == Some(TotalsItems(a, order))
    decreases |order|
  {
    if order != [] {
      var n := |order| - 1;
      var k, v := order[n], Tot(a, order[n]);
      EntriesSnoc(a, order);
      TotalsItemsSnoc(a, order);
      EntryTextPlain(k, v);
      ParseEntryRoundTrip(k, v);
      EntriesEmptyOrTab(a, order[..n]);
      ParseEntriesRoundTrip(a, order[..n]);
      ParseEntriesSnoc(Entries(a, order[..n]), k + " = " + IntToString(v), (k, v), TotalsItems(a, order[..n]));
    }
  }

  /**
   * The report is faithful: when no key holds a tab, reading the
   * report back yields exactly the (key, total) pairs of `totals`, in
   * insertion order.
   */
  lemma ReportRoundTrip(a: Accum)
    requires forall i :: 0 <= i < |a.totalsOrder| ==> PlainKey(a.totalsOrder[i])
    ensures ParseReport(Report(a)) == Some(TotalsItems(a, a.totalsOrder))
  {
    var body := Entries(a, a.totalsOrder);
    var s := Report(a);
    assert s[..8] == "Totals: ";
    assert s[8..|s| - 1] == body;
    ParseEntriesRoundTrip(a, a.totalsOrder);
  }

  /** A tab inside a key is ambiguous: one key `x = 1<tab>y` prints as the two entries `x = 1` and `y = 2`. */
  lemma TabKeyAmbiguous()
    ensures Entry("x = 1\ty", 2) == Entry("x", 1) + Entry("y", 2)
  {
    assert IntToString(1) == "1" && IntToString(2) == "2";
  }

  /** The report depends on `totals` alone: an all-`None` update leaves it as it was. */
  lemma NoneUpdateKeepsReport(a: Accum, kw: Kwargs)
    requires forall i :: 0 <= i < |kw| ==> kw[i].1.None?
    ensures Report(Apply(a, kw)) == Report(a)
  {
    ApplyNoneKeepsTotals(a, kw);
    EntriesDependOnTotals(Apply(a, kw), a, a.totalsOrder);
  }

  lemma {:induction false} EntriesDependOnTotals(a: Accum, b: Accum, order: seq<string>)
    requires a.totals == b.totals
    ensures Entries(a, order) == Entries(b, order)
    decreases |order|
  {
    if order != [] {
      EntriesDependOnTotals(a, b, order[..|order| - 1]);
    }
  }

  /** A fresh tracker's report has an empty body. */
  lemma EmptyReport()
    ensures Report(Empty) == "Totals: \n"
  {
  }

  /** Two keys, each updated once, are listed in the order they were first supplied. */
  lemma TwoKeyReport()
    ensures Report(Apply(Empty, [("a", Some(1)), ("b", Some(2))])) == "Totals: a = 1\tb = 2\t\n"
  {
    TwoKeyState();
    TwoKeyEntries(Apply(Empty, [("a", Some(1)), ("b", Some(2))]));
  }

  lemma TwoKeyState()
    ensures var a := Apply(Empty, [("a", Some(1)), ("b", Some(2))]);
      a.totalsOrder == ["a", "b"] && a.totals == map["a" := 1, "b" := 2]
  {
    var kw: Kwargs := [("a", Some(1)), ("b", Some(2))];
    assert kw[..1][..0] == [];
    assert Apply(Empty, kw[..1]) == Step(Empty, "a", Some(1));
    var a1 := Apply(Empty, kw[..1]);
    assert a1.totalsOrder == ["a"] && a1.totals == map["a" := 1];
    assert Apply(Empty, kw) == Step(a1, "b", Some(2));
  }

  lemma TwoKeyEntries(a: Accum)
    requires a.totalsOrder == ["a", "b"] && a.totals == map["a" := 1, "b" := 2]
    ensures Report(a) == "Totals: a = 1\tb = 2\t\n"
  {
    assert ["a", "b"][..1] == ["a"];
    assert ["a"][..0] == [];
    assert IntToString(1) == "1" && IntToString(2) == "2";
    assert Entries(a, ["a"]) == Entry("a", 1) by {
      assert Entries(a, ["a"]) == Entries(a, []) + Entry("a", Tot(a, "a"));
    }
    assert Entries(a, ["a", "b"]) == Entry("a", 1) + Entry("b", 2);
  }
}
