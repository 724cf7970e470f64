/**
  Reading a command-line date as `main` does: split the text on `-`, convert
  every part with `int`, and build `date(*parts)`; any exception on the way
  makes the date unusable, here `None`.
 */
module DateParser {
  import opened Wrappers
  import opened Decimal
  import opened Calendar

  /** `s.split(sep)` with an explicit one-character separator. */
  function Split(s: string, sep: char): (parts: seq<string>)
    ensures |parts| >= 1
    ensures forall i :: 0 <= i < |parts| ==> sep !in parts[i]
  {
    if s == [] then [[]]
    else
      var rest := Split(s[1..], sep);
      if s[0] == sep then [[]] + rest else [[s[0]] + rest[0]] + rest[1..]
  }

  /** `sep.join(parts)`. */
  function Join(parts: seq<string>, sep: char): string
    requires |parts| >= 1
  {
    if |parts| == 1 then parts[0] else parts[0] + [sep] + Join(parts[1..], sep)
  }

  /** Splitting loses nothing: joining the parts back gives the original text. */
  lemma {:induction false} JoinSplit(s: string, sep: char)
    ensures Join(Split(s, sep), sep) == s
  {
    if s != [] {
      JoinSplit(s[1..], sep);
      var rest := Split(s[1..], sep);
      if s[0] != sep && |rest| > 1 {
        assert Join(rest, sep) == rest[0] + [sep] + Join(rest[1..], sep);
        assert ([[s[0]] + rest[0]] + rest[1..])[1..] == rest[1..];
      }
    }
  }

  /** Joining parts that do not contain the separator and splitting again gives the parts back. */
  lemma {:induction false} SplitJoin(parts: seq<string>, sep: char)
    requires |parts| >= 1
    requires forall i :: 0 <= i < |parts| ==> sep !in parts[i]
    ensures Split(Join(parts, sep), sep) == parts
  {
    if |parts| == 1 {
      SplitPlain(parts[0], sep);
    } else {
      SplitJoin(parts[1..], sep);
      SplitAround(parts[0], Join(parts[1..], sep), sep);
      assert [parts[0]] + parts[1..] == parts;
    }
  }

  /** Text without the separator is a single part. */
  lemma {:induction false} SplitPlain(s: string, sep: char)
    requires sep !in s
    ensures Split(s, sep) == [s]
  {
    if s != [] {
      SplitPlain(s[1..], sep);
      assert [s[0]] + s[1..] == s;
    }
  }

  /** Cutting at a separator: the parts of `a + sep + b` are those of `a` followed by those of `b`, when `a` has no separator. */
  lemma {:induction false} SplitAround(a: string, b: string, sep: char)
    requires sep !in a
    ensures Split(a + [sep] + b, sep) == [a] + Split(b, sep)
  {
    if a == [] {
      assert [sep] + b == [sep] + b;
      assert ([sep] + b)[1..] == b;
    } else {
      SplitAround(a[1..], b, sep);
      assert (a + [sep] + b)[1..] == a[1..] + [sep] + b;
      assert [a[0]] + a[1..] == a;
    }
  }

  /**
    `date(*[int(p) for p in s.split("-")])`, or `None` where it raises: the
    text must split into exactly three parts, each an integer, forming a valid
    calendar date.
   */
  function ParseDate(s: string): (r: Option<Date>)
    ensures r.Some? ==> Valid(r.value)
  {
    var parts := Split(s, '-');
    if |parts| != 3 then None
    else
      var y, m, d := ParseInt(parts[0]), ParseInt(parts[1]), ParseInt(parts[2]);
      if y.None? || m.None? || d.None? then None
      else if Valid(Date(y.value, m.value, d.value)) then Some(Date(y.value, m.value, d.value))
      else None
  }

  /**
    Three digit groups joined by `-` (padded or not) are accepted exactly when
    the numbers they spell form a valid date, and then give that date.
   */
  lemma ParseDigitTriple(a: string, b: string, c: string)
    requires |a| > 0 && AllDigits(a) && |b| > 0 && AllDigits(b) && |c| > 0 && AllDigits(c)
    ensures var d := Date(DigitsValue(a), DigitsValue(b), DigitsValue(c));
            ParseDate(a + "-" + b + "-" + c) == if Valid(d) then Some(d) else None
  {
    NoDashInDigits(a);
    NoDashInDigits(b);
    NoDashInDigits(c);
    var s := a + "-" + b + "-" + c;
    assert [a, b, c][1..] == [b, c] && [b, c][1..] == [c];
    assert Join([b, c], '-') == b + "-" + c;
    assert s == Join([a, b, c], '-');
    SplitJoin([a, b, c], '-');
    ParseDigitsOnly(a);
    ParseDigitsOnly(b);
    ParseDigitsOnly(c);
  }

  lemma NoDashInDigits(s: string)
    requires AllDigits(s)
    ensures '-' !in s
  {
  }

  /** `date.fromisoformat`-style round trip: parsing `isoformat()` gives the date back. */
  lemma ParseIsoFormat(d: Date)
    requires Valid(d)
    ensures ParseDate(IsoFormat(d)) == Some(d)
  {
    var s := IsoFormat(d);
    assert s == s[..4] + "-" + s[5..7] + "-" + s[8..];
    ParseDigitTriple(s[..4], s[5..7], s[8..]);
  }

  /** Parsing needs exactly two separators: any other number of parts is rejected. */
  lemma ParseNeedsThreeParts(s: string)
    requires |Split(s, '-')| != 3
    ensures ParseDate(s) == None
  {
  }

  /** An impossible day of February is rejected. */
  lemma ParseRejectsFebruary30()
    ensures ParseDate("2025-02-30") == None
  {
    February30Split();
    assert DigitsValue("2025") == 2025 by { DigitsValueShort("2025"); }
    assert DigitsValue("02") == 2 && DigitsValue("30") == 30 by {
      DigitsValueShort("02");
      DigitsValueShort("30");
    }
    assert !Valid(Date(2025, 2, 30));
    ParseDigitTriple("2025", "02", "30");
  }

  lemma February30Split()
    ensures "2025-02-30" == "2025" + "-" + "02" + "-" + "30"
  {
  }

  /** A date written with another separator is one part, not three, and is rejected. */
  lemma ParseRejectsSlashes()
    ensures ParseDate("2025/09/08") == None
  {
    assert '-' !in "2025/09/08";
    SplitPlain("2025/09/08", '-');
  }

  /** Fields need not be padded: `int` reads `9` and `09` alike. */
  lemma ParseAcceptsUnpadded()
    ensures ParseDate("2025-9-8") == Some(Date(2025, 9, 8))
  {
    UnpaddedSplit();
    assert DigitsValue("2025") == 2025 by { DigitsValueShort("2025"); }
    assert DigitsValue("9") == 9 && DigitsValue("8") == 8 by {
      DigitsValueShort("9");
      DigitsValueShort("8");
    }
    ParseDigitTriple("2025", "9", "8");
  }

  /** The default start date, as written on the command line. */
  lemma ParseAcceptsPadded()
    ensures ParseDate("2025-09-08") == Some(Date(2025, 9, 8))
  {
    PaddedSplit();
    assert DigitsValue("2025") == 2025 by { DigitsValueShort("2025"); }
    assert DigitsValue("09") == 9 && DigitsValue("08") == 8 by {
      DigitsValueShort("09");
      DigitsValueShort("08");
    }
    ParseDigitTriple("2025", "09", "08");
  }

  /** The default end date, as written on the command line. */
  lemma ParseAcceptsDefaultEnd()
    ensures ParseDate("2026-01-03") == Some(Date(2026, 1, 3))
  {
    DefaultEndSplit();
    assert DigitsValue("2026") == 2026 by { DigitsValueShort("2026"); }
    assert DigitsValue("01") == 1 && DigitsValue("03") == 3 by {
      DigitsValueShort("01");
      DigitsValueShort("03");
    }
    ParseDigitTriple("2026", "01", "03");
  }

  lemma DefaultEndSplit()
    ensures "2026-01-03" == "2026" + "-" + "01" + "-" + "03"
  {
  }

  lemma UnpaddedSplit()
    ensures "2025-9-8" == "2025" + "-" + "9" + "-" + "8"
  {
  }

  lemma PaddedSplit()
    ensures "2025-09-08" == "2025" + "-" + "09" + "-" + "08"
  {
  }
}
