/**
 The journal of numbered text entries (solid/01_single_responsibility_principle.py,
 class `Journal`).

 Each entry is stored as the text "<n>: <text>", where n is the value of a
 counter that only ever grows. The class invariant `Valid` says that the
 numbers at the head of the stored entries increase along the list and lie in
 1..count; from it follows that there are never more entries than the counter
 says, and that a number is never handed out twice, even after removals.
 */
module SingleResponsibility {

  // ---------------------------------------------------------------------
  // Decimal numerals: the `{self.count}` part of the entry format

  predicate IsDigit(c: char)
  {
    '0' <= c <= '9'
  }

  predicate AllDigits(s: string)
  {
    forall i | 0 <= i < |s| :: IsDigit(s[i])
  }

  /** The decimal numeral of `n`, without sign or leading zeros. */
  function Decimal(n: nat): (s: string)
    ensures |s| > 0 && AllDigits(s)
    ensures s[0] != '0' || n == 0
  {
    var last := ['0' + (n % 10) as char];
    if n < 10 then last else Decimal(n / 10) + last
  }

  /** The number a string of digits denotes. */
  function DigitsValue(s: string): (n: nat)
    requires AllDigits(s)
  {
    if s == [] then 0
    else DigitsValue(s[..|s| - 1]) * 10 + (s[|s| - 1] - '0') as int
  }

  /** The longest prefix of `s` made of digits. */
  function LeadingDigits(s: string): (d: string)
    ensures AllDigits(d) && d <= s
    ensures d == s || !IsDigit(s[|d|])
  {
    if s == [] || !IsDigit(s[0]) then [] else [s[0]] + LeadingDigits(s[1..])
  }

  /** Reading back a numeral gives the number it was written from. */
  lemma {:induction false} DecimalRoundTrip(n: nat)
    ensures DigitsValue(Decimal(n)) == n
  {
    var s := Decimal(n);
    if n >= 10 {
      DecimalRoundTrip(n / 10);
      assert s[..|s| - 1] == Decimal(n / 10);
    }
  }

  /** Digits followed by a non-digit: the leading digits are exactly those digits. */
  lemma {:induction false} LeadingDigitsOfNumeral(d: string, rest: string)
    requires AllDigits(d)
    requires rest == [] || !IsDigit(rest[0])
    ensures LeadingDigits(d + rest) == d
  {
    if d != [] {
      assert (d + rest)[1..] == d[1..] + rest;
      LeadingDigitsOfNumeral(d[1..], rest);
    }
  }

  // ---------------------------------------------------------------------
  // The entry format

  /** The stored form of the entry numbered `n`: the f-string "{n}: {text}". */
  function FormatEntry(n: nat, text: string): (entry: string)
  {
    Decimal(n) + ": " + text
  }

  /** The number an entry starts with. */
  function EntryNumber(entry: string): (n: nat)
  {
    DigitsValue(LeadingDigits(entry))
  }

  /** An entry formatted with number `n` reads back as number `n`, whatever its text. */
  lemma EntryNumberOfFormat(n: nat, text: string)
    ensures EntryNumber(FormatEntry(n, text)) == n
  {
    assert FormatEntry(n, text) == Decimal(n) + (": " + text);
    LeadingDigitsOfNumeral(Decimal(n), ": " + text);
    DecimalRoundTrip(n);
  }

  /**
   The numbering discipline of a journal whose counter stands at `bound`:
   entry numbers increase strictly along the list and lie in 1..bound.
   */
  ghost predicate NumberedUpTo(entries: seq<string>, bound: int)
  {
    && (forall i, j | 0 <= i < j < |entries| :: EntryNumber(entries[i]) < EntryNumber(entries[j]))
    && (forall i | 0 <= i < |entries| :: 1 <= EntryNumber(entries[i]) <= bound)
  }

  /** Strictly increasing numbers from 1..bound: there are at most `bound` of them. */
  lemma {:induction false} NumberingBoundsLength(entries: seq<string>, bound: nat)
    requires NumberedUpTo(entries, bound)
    ensures |entries| <= bound
  {
    if entries != [] {
      var n := |entries| - 1;
      var front := entries[..n];
      var top := EntryNumber(entries[n]);
      assert 1 <= top <= bound;
      assert NumberedUpTo(front, top - 1) by {
        forall i | 0 <= i < |front| ensures 1 <= EntryNumber(front[i]) <= top - 1 {
          assert front[i] == entries[i];
        }
      }
      NumberingBoundsLength(front, top - 1);
    }
  }

  /** Deleting one entry keeps the numbering discipline. */
  lemma NumberedAfterRemoval(entries: seq<string>, k: int, bound: nat)
    requires NumberedUpTo(entries, bound)
    requires 0 <= k < |entries|
    ensures NumberedUpTo(entries[..k] + entries[k + 1..], bound)
  {
    var rest := entries[..k] + entries[k + 1..];
    forall i | 0 <= i < |rest| ensures rest[i] == entries[if i < k then i else i + 1] {
    }
  }

  // ---------------------------------------------------------------------
  // Rendering: `__str__`

  /** `"\n".join(lines)`: the lines separated by newlines, with none at the end. */
  function Join(lines: seq<string>): (s: string)
  {
    if lines == [] then ""
    else if |lines| == 1 then lines[0]
    else lines[0] + "\n" + Join(lines[1..])
  }

  /** The pieces of `s` between newlines, as `str.split("\n")` gives them. */
  function SplitLines(s: string): (pieces: seq<string>)
    ensures |pieces| >= 1
  {
    if s == [] then [""]
    else
      var rest := SplitLines(s[1..]);
      if s[0] == '\n' then [""] + rest
      else [[s[0]] + rest[0]] + rest[1..]
  }

  lemma {:induction false} SplitLinesPrefix(a: string, t: string)
    requires '\n' !in a
    ensures SplitLines(a + t) == [a + SplitLines(t)[0]] + SplitLines(t)[1..]
  {
    if a != [] {
      assert (a + t)[0] == a[0];
      assert (a + t)[1..] == a[1..] + t;
      SplitLinesPrefix(a[1..], t);
      assert [a[0]] + (a[1..] + SplitLines(t)[0]) == a + SplitLines(t)[0];
    } else {
      assert a + t == t;
      assert a + SplitLines(t)[0] == SplitLines(t)[0];
      assert SplitLines(t) == [SplitLines(t)[0]] + SplitLines(t)[1..];
    }
  }

  /**
   Rendering a non-empty list loses nothing when no entry holds a newline:
   splitting the rendered text at newlines gives back the entries. (The empty
   list renders as "", which splits into one empty piece.)
   */
  lemma {:induction false} SplitJoin(lines: seq<string>)
    requires lines != []
    requires forall i | 0 <= i < |lines| :: '\n' !in lines[i]
    ensures SplitLines(Join(lines)) == lines
  {
    if |lines| == 1 {
      SplitLinesPrefix(lines[0], "");
      assert lines[0] + "" == lines[0];
    } else {
      var tail := Join(lines[1..]);
      SplitJoin(lines[1..]);
      assert Join(lines) == lines[0] + ("\n" + tail);
      SplitLinesPrefix(lines[0], "\n" + tail);
      assert ("\n" + tail)[1..] == tail;
      assert lines[0] + "" == lines[0];
      assert lines == [lines[0]] + lines[1..];
    }
  }

  /** A journal with no entries renders as the empty string. */
  lemma JoinEmpty()
    ensures Join([]) == ""
  {
  }

  /** Rendering puts exactly one newline between consecutive entries and none at the end. */
  lemma {:induction false} JoinAppend(lines: seq<string>, line: string)
    ensures Join(lines + [line]) == if lines == [] then line else Join(lines) + "\n" + line
  {
    if |lines| > 1 {
      assert (lines + [line])[1..] == lines[1..] + [line];
      JoinAppend(lines[1..], line);
    } else if |lines| == 1 {
      assert lines + [line] == [lines[0], line];
      assert [lines[0], line][1..] == [line];
    }
  }

  // ---------------------------------------------------------------------
  // The journal

  class Journal {
    var entries: seq<string>
    var count: nat

    ghost predicate Valid()
      reads this
    {
      NumberedUpTo(entries, count)
    }

    /** `__str__` */
    function Render(): (s: string)
      reads this
    {
      Join(entries)
    }

    constructor ()
      ensures Valid()
      ensures entries == [] && count == 0
    {
      entries := [];
      count := 0;
    }

    /** Numbers `text` with the next value of the counter and appends it. */
    method AddEntry(text: string)
      requires Valid()
      modifies this
      ensures Valid() && |entries| <= count
      ensures count == old(count) + 1
      ensures entries == old(entries) + [FormatEntry(count, text)]
      ensures EntryNumber(entries[|entries| - 1]) == count
      ensures forall i | 0 <= i < |old(entries)| :: EntryNumber(entries[i]) < count
    {
      count := count + 1;
      var entry := FormatEntry(count, text);
      EntryNumberOfFormat(count, text);
      entries := entries + [entry];
      NumberingBoundsLength(entries, count);
    }

    /**
     `del self.entries[pos]`: a negative position counts from the end, as in
     Python; a position outside the list raises, so callers must avoid it.
     */
    method RemoveEntry(pos: int)
      requires Valid()
      requires -|entries| <= pos < |entries|
      modifies this
      ensures Valid() && |entries| <= count
      ensures count == old(count)
      ensures var k := if pos < 0 then pos + |old(entries)| else pos;
              entries == old(entries[..k] + entries[k + 1..])
    {
      var k := if pos < 0 then pos + |entries| else pos;
      NumberedAfterRemoval(entries, k, count);
      entries := entries[..k] + entries[k + 1..];
      NumberingBoundsLength(entries, count);
    }
  }

  /** The two entries the demonstration stores. */
  lemma DemoEntries()
    ensures FormatEntry(1, "Hello World!!") == "1: Hello World!!"
    ensures FormatEntry(2, "Hello Python!!") == "2: Hello Python!!"
  {
    assert Decimal(1) == ['1'] && Decimal(2) == ['2'];
  }

  /** The text the demonstration's two entries render to. */
  lemma DemoRendering()
    ensures Join([FormatEntry(1, "Hello World!!"), FormatEntry(2, "Hello Python!!")])
            == "1: Hello World!!\n2: Hello Python!!"
  {
    DemoEntries();
    var first, second := "1: Hello World!!", "2: Hello Python!!";
    assert [first, second][1..] == [second];
    assert Join([first, second]) == first + "\n" + Join([second]);
  }

  /** The demonstration: two entries added to a new journal, then rendered. */
  method Demo() returns (rendered: string)
    ensures rendered == "1: Hello World!!\n2: Hello Python!!"
  {
    var j := new Journal();
    j.AddEntry("Hello World!!");
    j.AddEntry("Hello Python!!");
    rendered := j.Render();
    DemoRendering();
  }
}
