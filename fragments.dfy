/**
  The SQL fragment builder: identifier quoting, the column list, the
  positional placeholder list `$1,$2,...`, the `SET` list `"col"=$i` and the
  value list, as the base engine generates them from one record. The lists
  are built by loops that add a separator only when the text so far is
  non-empty; `Fold` is that accumulation and `Join` the plain separated list.
 */
module Fragments {
  import opened Values

  /**
    `quoteIdentifier`: an empty name and a name that already starts with a
    double quote are returned unchanged; any other name is wrapped in quotes.
   */
  function QuoteIdentifier(value: string): (r: string)
    ensures r == "" <==> value == ""
    ensures r != "" ==> r[0] == '"'
    ensures r == value || r == "\"" + value + "\""
    ensures value != "" && value[0] != '"' ==> r == "\"" + value + "\""
  {
    if value == "" then value
    else if value[0] == '"' then value
    else "\"" + value + "\""
  }

  /** Quoting an already quoted (or empty) name changes nothing, so quoting twice is quoting once. */
  lemma QuoteIdempotent(value: string)
    ensures QuoteIdentifier(QuoteIdentifier(value)) == QuoteIdentifier(value)
  {
  }

  /** `s` begins with `p`. */
  predicate StartsWith(s: string, p: string) {
    |p| <= |s| && s[..|p|] == p
  }

  /** Text added at the end keeps what a string begins with. */
  lemma StartsWithAppend(a: string, b: string, p: string)
    requires StartsWith(a, p)
    ensures StartsWith(a + b, p)
  {
    assert (a + b)[..|p|] == a[..|p|];
  }

  /** `s` ends with `p`. */
  predicate EndsWith(s: string, p: string) {
    |p| <= |s| && s[|s| - |p|..] == p
  }

  /** Text put in front keeps what a string ends with. */
  lemma EndsWithAppend(a: string, b: string, p: string)
    requires EndsWith(b, p)
    ensures EndsWith(a + b, p)
  {
    assert (a + b)[|a + b| - |p|..] == b[|b| - |p|..];
  }

  lemma SeqAssoc(a: string, b: string, c: string)
    ensures a + b + c == a + (b + c)
  {
  }

  // ---------------------------------------------------------------------
  // Numbers as text

  /** The digit `d` of base 10 or 16, lower case. */
  function DigitChar(d: nat): char
    requires d < 16
  {
    if d < 10 then ('0' as int + d) as char else ('a' as int + d - 10) as char
  }

  lemma DigitRoundTrip(d: nat)
    requires d < 16
    ensures DigitValue(DigitChar(d)) == d
  {
  }

  function DigitValue(c: char): nat {
    if '0' <= c <= '9' then (c - '0') as nat
    else if 'a' <= c <= 'f' then (c - 'a') as nat + 10
    else 0
  }

  /** The digits of `n` in base 10, as JavaScript's `"$" + index` writes them. */
  function Dec(n: nat): (r: string)
    ensures |r| > 0
    ensures forall k :: 0 <= k < |r| ==> '0' <= r[k] <= '9'
  {
    if n < 10 then [DigitChar(n)] else Dec(n / 10) + [DigitChar(n % 10)]
  }

  /** The digits of `n` in base 16, lower case, as Go's `strconv.FormatInt(n, 16)` writes them. */
  function Hex(n: nat): (r: string)
    ensures |r| > 0
  {
    if n < 16 then [DigitChar(n)] else Hex(n / 16) + [DigitChar(n % 16)]
  }

  /** The number a digit string denotes in the given base. */
  function ReadNumber(s: string, base: nat): nat {
    if s == [] then 0 else ReadNumber(s[..|s| - 1], base) * base + DigitValue(s[|s| - 1])
  }

  /** Decimal text reads back as the number it was made from. */
  lemma {:induction false} DecReadsBack(n: nat)
    ensures ReadNumber(Dec(n), 10) == n
  {
    if n >= 10 {
      DecReadsBack(n / 10);
      var s := Dec(n);
      assert s[..|s| - 1] == Dec(n / 10);
      DigitRoundTrip(n % 10);
      assert ReadNumber(s, 10) == ReadNumber(Dec(n / 10), 10) * 10 + n % 10;
    } else {
      DigitRoundTrip(n);
      assert Dec(n)[..0] == [];
    }
  }

  /** Hexadecimal text reads back, in base 16, as the number it was made from. */
  lemma {:induction false} HexReadsBack(n: nat)
    ensures ReadNumber(Hex(n), 16) == n
  {
    if n >= 16 {
      HexReadsBack(n / 16);
      var s := Hex(n);
      assert s[..|s| - 1] == Hex(n / 16);
      DigitRoundTrip(n % 16);
      assert ReadNumber(s, 16) == ReadNumber(Hex(n / 16), 16) * 16 + n % 16;
    } else {
      DigitRoundTrip(n);
      assert Hex(n)[..0] == [];
    }
  }

  /** Decimal text of distinct numbers differs, so placeholders name distinct positions. */
  lemma DecInjective(m: nat, n: nat)
    requires Dec(m) == Dec(n)
    ensures m == n
  {
    DecReadsBack(m);
    DecReadsBack(n);
  }

  /** Below ten, base 16 and base 10 agree digit for digit. */
  lemma HexIsDecBelowTen(n: nat)
    requires n < 10
    ensures Hex(n) == Dec(n)
  {
  }

  /** An integer as JavaScript's string concatenation writes it. */
  function IntText(i: int): (r: string)
    ensures i >= 0 ==> r == Dec(i)
    ensures i < 0 ==> r == "-" + Dec(-i)
  {
    if i < 0 then "-" + Dec(-i) else Dec(i)
  }

  // ---------------------------------------------------------------------
  // Separated lists

  /** One loop step: add the separator only when the text so far is non-empty. */
  function Append(acc: string, sep: string, piece: string): string {
    (if acc != "" then acc + sep else acc) + piece
  }

  /** The text a `for` loop of `Append` steps builds from `parts`. */
  function Fold(parts: seq<string>, sep: string): string
    decreases |parts|
  {
    if parts == [] then "" else Append(Fold(parts[..|parts| - 1], sep), sep, parts[|parts| - 1])
  }

  /** One more loop step extends the accumulation by the next entry. */
  lemma FoldStep(parts: seq<string>, sep: string, i: nat)
    requires i < |parts|
    ensures Fold(parts[..i + 1], sep) == Append(Fold(parts[..i], sep), sep, parts[i])
  {
    assert parts[..i + 1][..i] == parts[..i];
  }

  /** `parts` with `sep` between consecutive entries. */
  function Join(parts: seq<string>, sep: string): string
    decreases |parts|
  {
    if |parts| == 0 then ""
    else if |parts| == 1 then parts[0]
    else Join(parts[..|parts| - 1], sep) + sep + parts[|parts| - 1]
  }

  predicate NoneEmpty(parts: seq<string>) {
    forall k :: 0 <= k < |parts| ==> parts[k] != ""
  }

  lemma {:induction false} JoinNonEmpty(parts: seq<string>, sep: string)
    requires NoneEmpty(parts) && |parts| > 0
    ensures Join(parts, sep) != ""
  {
    if |parts| > 1 {
      JoinNonEmpty(parts[..|parts| - 1], sep);
    }
  }

  /**
    When no piece is empty, the loop's accumulation is the plain separated
    list: every piece is preceded by exactly one separator except the first.
   */
  lemma {:induction false} FoldIsJoin(parts: seq<string>, sep: string)
    requires NoneEmpty(parts)
    ensures Fold(parts, sep) == Join(parts, sep)
  {
    if |parts| > 1 {
      var init := parts[..|parts| - 1];
      FoldIsJoin(init, sep);
      JoinNonEmpty(init, sep);
    } else if |parts| == 1 {
      assert parts[..0] == [];
    }
  }

  /** Index of the last occurrence of `c` in `s`, or -1. */
  function LastIndexOf(s: string, c: char): (k: int)
    ensures -1 <= k < |s|
    ensures k >= 0 ==> s[k] == c
    ensures forall j :: k < j < |s| ==> s[j] != c
  {
    if s == [] then -1
    else if s[|s| - 1] == c then |s| - 1
    else LastIndexOf(s[..|s| - 1], c)
  }

  /** Cuts `s` at every occurrence of `sep` (the inverse of `Join`). */
  function Split(s: string, sep: char): (r: seq<string>)
    ensures |r| > 0
    decreases |s|
  {
    var k := LastIndexOf(s, sep);
    if k < 0 then [s] else Split(s[..k], sep) + [s[k + 1..]]
  }

  lemma {:induction false} LastIndexAfterJoin(a: string, sep: char, b: string)
    requires forall j :: 0 <= j < |b| ==> b[j] != sep
    ensures LastIndexOf(a + [sep] + b, sep) == |a|
    decreases |b|
  {
    var s := a + [sep] + b;
    if b != [] {
      assert s[|s| - 1] == b[|b| - 1];
      assert s[..|s| - 1] == a + [sep] + b[..|b| - 1];
      LastIndexAfterJoin(a, sep, b[..|b| - 1]);
    }
  }

  predicate FreeOf(parts: seq<string>, sep: char) {
    forall k, j :: 0 <= k < |parts| && 0 <= j < |parts[k]| ==> parts[k][j] != sep
  }

  /** A separated list whose entries do not contain the separator reads back entry by entry. */
  predicate CharFree(s: string, c: char) {
    forall j :: 0 <= j < |s| ==> s[j] != c
  }

  /** Cutting at the last separator splits off the final entry. */
  lemma SplitStep(a: string, sep: char, b: string)
    requires forall j :: 0 <= j < |b| ==> b[j] != sep
    ensures Split(a + [sep] + b, sep) == Split(a, sep) + [b]
  {
    var s := a + [sep] + b;
    LastIndexAfterJoin(a, sep, b);
    assert s[..|a|] == a;
    assert s[|a| + 1..] == b;
  }

  /** The entries of a separator-free list, and those of its prefixes, are separator-free. */
  lemma FreeOfParts(parts: seq<string>, sep: char, n: nat)
    requires FreeOf(parts, sep) && 0 < n <= |parts|
    ensures FreeOf(parts[..n - 1], sep)
    ensures CharFree(parts[n - 1], sep)
  {
    var init := parts[..n - 1];
    forall k, j | 0 <= k < |init| && 0 <= j < |init[k]| ensures init[k][j] != sep {
      assert init[k] == parts[k];
    }
  }

  lemma {:induction false} SplitJoin(parts: seq<string>, sep: char)
    requires |parts| > 0
    requires FreeOf(parts, sep)
    ensures Split(Join(parts, [sep]), sep) == parts
  {
    var last := parts[|parts| - 1];
    var init := parts[..|parts| - 1];
    FreeOfParts(parts, sep, |parts|);
    if |parts| == 1 {
      assert LastIndexOf(last, sep) < 0;
    } else {
      assert Join(parts, [sep]) == Join(init, [sep]) + [sep] + last;
      SplitStep(Join(init, [sep]), sep, last);
      SplitJoin(init, sep);
      assert parts == init + [last];
    }
  }

  // ---------------------------------------------------------------------
  // The fragments of one statement

  /** The `i`-th positional parameter, `$i`. */
  function Placeholder(i: nat): string {
    "$" + Dec(i)
  }

  /** `$1`, ..., `$n`. */
  function Placeholders(n: nat): (r: seq<string>)
    ensures |r| == n
  {
    seq(n, i requires 0 <= i < n => Placeholder(i + 1))
  }

  /** The quoted column of every key. */
  function ColumnList(names: seq<string>): (r: seq<string>)
    ensures |r| == |names|
  {
    seq(|names|, i requires 0 <= i < |names| => QuoteIdentifier(names[i]))
  }

  /** The `SET` entry of every key: its quoted column bound to its own position. */
  function SetList(names: seq<string>): (r: seq<string>)
    ensures |r| == |names|
  {
    seq(|names|, i requires 0 <= i < |names| => QuoteIdentifier(names[i]) + "=$" + Dec(i + 1))
  }

  lemma PlaceholdersNonEmpty(n: nat)
    ensures NoneEmpty(Placeholders(n))
  {
  }

  lemma SetListNonEmpty(names: seq<string>)
    ensures NoneEmpty(SetList(names))
  {
    forall k | 0 <= k < |names| ensures SetList(names)[k] != "" {
      assert |SetList(names)[k]| >= 2;
    }
  }

  lemma PlaceholdersPrefix(n: nat)
    ensures Placeholders(n + 1)[..n] == Placeholders(n)
  {
  }

  /** `generateColumns`: the quoted keys, comma-separated, in key order. */
  method GenerateColumns(names: seq<string>) returns (result: string)
    ensures result == Fold(ColumnList(names), ",")
  {
    result := "";
    for i := 0 to |names|
      invariant result == Fold(ColumnList(names)[..i], ",")
    {
      FoldStep(ColumnList(names), ",", i);
      var piece := QuoteIdentifier(names[i]);
      assert piece == ColumnList(names)[i];
      if result != "" {
        result := result + ",";
      }
      result := result + piece;
    }
    assert ColumnList(names)[..|names|] == ColumnList(names);
  }

  /** `generateParameters`: one placeholder per element, `$1,$2,...,$n`, and "" when there are none. */
  method GenerateParameters<T>(values: seq<T>) returns (result: string)
    ensures result == Join(Placeholders(|values|), ",")
    ensures |values| == 0 ==> result == ""
  {
    var index := 1;
    result := "";
    for i := 0 to |values|
      invariant index == i + 1
      invariant result == Fold(Placeholders(i), ",")
    {
      PlaceholdersPrefix(i);
      if result != "" {
        result := result + ",";
      }
      result := result + "$" + Dec(index);
      index := index + 1;
    }
    PlaceholdersNonEmpty(|values|);
    FoldIsJoin(Placeholders(|values|), ",");
  }

  /** `generateSetParameters`: `"key"=$i` for the i-th key, comma-separated. */
  method GenerateSetParameters(names: seq<string>) returns (result: string)
    ensures result == Join(SetList(names), ",")
  {
    result := "";
    var index := 1;
    for i := 0 to |names|
      invariant index == i + 1
      invariant result == Fold(SetList(names)[..i], ",")
    {
      FoldStep(SetList(names), ",", i);
      if result != "" {
        result := result + ",";
      }
      var entry := QuoteIdentifier(names[i]) + "=$" + Dec(index);
      assert entry == SetList(names)[i];
      result := result + entry;
      index := index + 1;
    }
    assert SetList(names)[..|names|] == SetList(names);
    SetListNonEmpty(names);
    FoldIsJoin(SetList(names), ",");
  }

  /** `generateValues`: the record's values, in the order the keys are enumerated. */
  function GenerateValues(fields: seq<Field>): (r: seq<Value>)
    ensures |r| == |Keys(fields)|
    ensures DistinctKeys(fields) ==> forall i :: 0 <= i < |r| ==> r[i] == Lookup(fields, Keys(fields)[i])
  {
    forall i | 0 <= i < |fields| ensures DistinctKeys(fields) ==> ValuesOf(fields)[i] == Lookup(fields, Keys(fields)[i]) {
      if DistinctKeys(fields) {
        LookupAtKey(fields, i);
      }
    }
    ValuesOf(fields)
  }

  /** The i-th SET entry is the i-th column bound to the i-th placeholder. */
  lemma SetEntryAt(names: seq<string>, i: nat)
    requires i < |names|
    ensures SetList(names)[i] == ColumnList(names)[i] + "=" + Placeholders(|names|)[i]
  {
    var q := QuoteIdentifier(names[i]);
    var p := Dec(i + 1);
    assert SetList(names)[i] == q + "=$" + p;
    assert "=$" + p == "=" + ("$" + p);
  }

  /** The i-th value is the i-th field's value, which is what its key looks up. */
  lemma ValueAt(fields: seq<Field>, i: nat)
    requires DistinctKeys(fields)
    requires i < |fields|
    ensures GenerateValues(fields)[i] == fields[i].value
    ensures GenerateValues(fields)[i] == Lookup(fields, fields[i].name)
  {
    LookupAtKey(fields, i);
    assert Keys(fields)[i] == fields[i].name;
  }

  /**
    Column i, placeholder i, SET entry i and value i all describe the same
    field of the record: the i-th column is the quoted i-th key, the i-th SET
    entry binds that column to `$(i+1)`, the i-th placeholder is `$(i+1)` and
    the i-th value is the value stored under the i-th key.
   */
  lemma Alignment(fields: seq<Field>, i: nat)
    requires DistinctKeys(fields)
    requires i < |fields|
    ensures ColumnList(Keys(fields))[i] == QuoteIdentifier(fields[i].name)
    ensures Placeholders(|fields|)[i] == "$" + Dec(i + 1)
    ensures SetList(Keys(fields))[i] == ColumnList(Keys(fields))[i] + "=" + Placeholders(|fields|)[i]
    ensures GenerateValues(fields)[i] == Lookup(fields, fields[i].name)
    ensures GenerateValues(fields)[i] == fields[i].value
  {
    SetEntryAt(Keys(fields), i);
    ValueAt(fields, i);
  }

  /**
    A key with an empty name contributes no column: `generateColumns` adds at
    most a bare comma for it, so the column text then names fewer columns
    than there are placeholders.
   */
  lemma EmptyKeyAddsNoColumn(before: seq<string>)
    ensures var f := Fold(ColumnList(before), ",");
      Fold(ColumnList(before + [""]), ",") == if f == "" then "" else f + ","
  {
    assert ColumnList(before + [""])[..|before|] == ColumnList(before);
  }

  /** With non-empty keys the column text is the plain comma-separated list of quoted keys. */
  lemma ColumnsAreJoined(names: seq<string>)
    requires forall k :: 0 <= k < |names| ==> names[k] != ""
    ensures Fold(ColumnList(names), ",") == Join(ColumnList(names), ",")
  {
    FoldIsJoin(ColumnList(names), ",");
  }

  /** The placeholder text reads back as `$1`, ..., `$n`, one entry per element. */
  lemma ParametersReadBack(n: nat)
    requires n > 0
    ensures Split(Join(Placeholders(n), ","), ',') == Placeholders(n)
    ensures forall i :: 0 <= i < n ==> Split(Join(Placeholders(n), ","), ',')[i] == "$" + Dec(i + 1)
  {
    assert FreeOf(Placeholders(n), ',') by {
      forall k, j | 0 <= k < n && 0 <= j < |Placeholders(n)[k]| ensures Placeholders(n)[k][j] != ',' {
        if j > 0 {
          assert Placeholders(n)[k][j] == Dec(k + 1)[j - 1];
        }
      }
    }
    SplitJoin(Placeholders(n), ',');
  }

  /**
    The SET text reads back entry by entry when no key contains a comma, and
    the i-th entry ends with the i-th placeholder.
   */
  lemma SetParametersReadBack(names: seq<string>)
    requires |names| > 0
    requires FreeOf(names, ',')
    ensures Split(Join(SetList(names), ","), ',') == SetList(names)
  {
    var list := SetList(names);
    assert FreeOf(list, ',') by {
      forall k, j | 0 <= k < |list| && 0 <= j < |list[k]| ensures list[k][j] != ',' {
        var q := QuoteIdentifier(names[k]);
        assert list[k] == q + "=$" + Dec(k + 1);
        if j < |q| {
          if q != names[k] {
            assert q == "\"" + names[k] + "\"";
            if 0 < j < |q| - 1 {
              assert q[j] == names[k][j - 1];
            }
          }
        } else if j >= |q| + 2 {
          assert list[k][j] == Dec(k + 1)[j - |q| - 2];
        }
      }
    }
    SplitJoin(list, ',');
  }
}
