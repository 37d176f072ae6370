/** Display helpers for paper metadata (src/utils/formatting.ts). */
module Formatting {

  import opened Text

  /** How many author names are shown before the rest is summarised. */
  const MaxShownAuthors: nat := 3

  const NameSeparator := ", "
  const Ellipsis := "..."

  /** The comma-separated author list, each name trimmed. */
  function Names(authors: string): (names: seq<string>)
    ensures |names| == Count(authors, ',') + 1
  {
    TrimAll(Split(authors, ','))
  }

  /** Every piece trimmed. */
  function TrimAll(parts: seq<string>): (r: seq<string>)
    ensures |r| == |parts|
    ensures forall i :: 0 <= i < |parts| ==> r[i] == Trim(parts[i])
  {
    seq(|parts|, i requires 0 <= i < |parts| => Trim(parts[i]))
  }

  /**
   * `formatAuthors`: up to three names joined by ", "; with more, the first
   * three followed by " +N more", N being the number of names left out.
   * A list without commas is a single name, shown trimmed.
   */
  function FormatAuthors(authors: string): (r: string)
  {
    var names := Names(authors);
    if |names| <= MaxShownAuthors then Join(names, NameSeparator)
    else Summary(Join(names[..MaxShownAuthors], NameSeparator), |names| - MaxShownAuthors)
  }

  /** The shown names followed by " +N more", N in decimal. */
  function Summary(shown: string, n: nat): string
  {
    shown + " +" + NatToString(n) + " more"
  }

  /** Each string with one space in front. */
  function Spaced(ts: seq<string>): (r: seq<string>)
    ensures |r| == |ts|
    ensures forall i :: 0 <= i < |ts| ==> r[i] == " " + ts[i]
  {
    seq(|ts|, i requires 0 <= i < |ts| => " " + ts[i])
  }

  /** Every name is trimmed and comma-free. */
  lemma {:induction false} NamesShape(authors: string)
    ensures forall i :: 0 <= i < |Names(authors)| ==> Trimmed(Names(authors)[i]) && ',' !in Names(authors)[i]
  {
    var parts := Split(authors, ',');
    TrimAllWithout(parts, ',');
    forall i | 0 <= i < |parts|
      ensures Trimmed(Trim(parts[i]))
    {
      TrimSpec(parts[i]);
    }
  }

  /** A list without commas is one name: the output is the input, trimmed. */
  lemma {:induction false} FormatAuthorsSingle(authors: string)
    requires ',' !in authors
    ensures FormatAuthors(authors) == Trim(authors)
  {
    SplitOfPiece(authors, ',');
  }

  /** Splitting comma-free names joined by ", " gives the first name, then the others with their leading space. */
  lemma {:induction false} SplitOfJoin(names: seq<string>)
    requires |names| >= 1
    requires forall i :: 0 <= i < |names| ==> ',' !in names[i]
    ensures Split(Join(names, NameSeparator), ',') == [names[0]] + Spaced(names[1..])
    decreases |names|
  {
    if |names| == 1 {
      SplitOfPiece(names[0], ',');
    } else {
      var rest := names[1..];
      var u := " " + Join(rest, NameSeparator);
      assert Split(Join(names, NameSeparator), ',') == [names[0]] + Split(u, ',') by {
        assert Join(names, NameSeparator) == names[0] + [','] + u;
        SplitAfterPiece(names[0], ',', u);
      }
      assert Split(u, ',') == Spaced(rest) by {
        SplitOfJoin(rest);
        SplitSpacePrefixed(Join(rest, NameSeparator));
        SpacedCons(rest);
      }
    }
  }

  /** A leading space stays with the first piece. */
  lemma {:induction false} SplitSpacePrefixed(t: string)
    ensures Split(" " + t, ',') == [" " + Split(t, ',')[0]] + Split(t, ',')[1..]
  {
    assert (" " + t)[1..] == t;
  }

  /** Spacing a non-empty list spaces its head and then its tail. */
  lemma {:induction false} SpacedCons(ts: seq<string>)
    requires |ts| >= 1
    ensures Spaced(ts) == [" " + ts[0]] + Spaced(ts[1..])
  {
  }

  /** Trimming the first name and the space-prefixed others gives the trimmed names back. */
  lemma {:induction false} TrimAllSpaced(names: seq<string>)
    requires |names| >= 1
    requires forall i :: 0 <= i < |names| ==> Trimmed(names[i])
    ensures TrimAll([names[0]] + Spaced(names[1..])) == names
  {
    var parts := [names[0]] + Spaced(names[1..]);
    forall i | 0 <= i < |names|
      ensures Trim(parts[i]) == names[i]
    {
      if i == 0 {
        TrimOfTrimmed(names[0]);
      } else {
        assert parts[i] == " " + names[i];
        TrimSpacePrefixed(names[i]);
      }
    }
  }

  /** Splitting trimmed, comma-free names joined by ", " and trimming the pieces gives the names back. */
  lemma {:induction false} NamesOfJoin(names: seq<string>)
    requires |names| >= 1
    requires forall i :: 0 <= i < |names| ==> Trimmed(names[i]) && ',' !in names[i]
    ensures Names(Join(names, NameSeparator)) == names
  {
    SplitOfJoin(names);
    TrimAllSpaced(names);
  }

  /**
   * With at most three names the output lists exactly the input's names,
   * separated by ", ": splitting it at commas gives the first name, then
   * each other name after one space, and trimming those gives the names back.
   */
  lemma {:induction false} FormatAuthorsShortRoundTrip(authors: string)
    requires Count(authors, ',') < MaxShownAuthors
    ensures Split(FormatAuthors(authors), ',') == [Names(authors)[0]] + Spaced(Names(authors)[1..])
    ensures Names(FormatAuthors(authors)) == Names(authors)
  {
    NamesShape(authors);
    SplitOfJoin(Names(authors));
    NamesOfJoin(Names(authors));
  }

  /** With at most three names, formatting an already formatted list changes nothing. */
  lemma {:induction false} FormatAuthorsShortIdempotent(authors: string)
    requires Count(authors, ',') < MaxShownAuthors
    ensures FormatAuthors(FormatAuthors(authors)) == FormatAuthors(authors)
  {
    FormatAuthorsShortRoundTrip(authors);
    var r := FormatAuthors(authors);
    assert Count(r, ',') == Count(authors, ',');
  }

  /**
   * With more than three names, the first three are shown joined by ", "
   * and followed by " +N more", where N is written in decimal without
   * leading zeros and reads back as the number of names not shown.
   */
  lemma {:induction false} FormatAuthorsLong(authors: string)
    requires Count(authors, ',') >= MaxShownAuthors
    ensures SummaryShape(FormatAuthors(authors), Join(Names(authors)[..MaxShownAuthors], NameSeparator),
                         |Names(authors)| - MaxShownAuthors)
  {
    var names := Names(authors);
    var shown := Join(names[..MaxShownAuthors], NameSeparator);
    LongForm(authors);
    SummaryPieces(FormatAuthors(authors), shown, |names| - MaxShownAuthors);
  }

  /** More than three names take the summarising branch. */
  lemma {:induction false} LongForm(authors: string)
    requires Count(authors, ',') >= MaxShownAuthors
    ensures var names := Names(authors);
      FormatAuthors(authors) == Summary(Join(names[..MaxShownAuthors], NameSeparator), |names| - MaxShownAuthors)
  {
  }

  /**
   * `r` is `shown`, " +", decimal digits and " more", each at its place,
   * where the digits have no leading zero and read back as `n`.
   */
  predicate SummaryShape(r: string, shown: string, n: nat)
  {
    && |shown| + 2 <= |r| - 5
    && r[..|shown|] == shown
    && r[|shown|..|shown| + 2] == " +"
    && r[|r| - 5..] == " more"
    && var digits := r[|shown| + 2..|r| - 5];
      && IsDigits(digits)
      && |digits| >= 1
      && (|digits| > 1 ==> digits[0] != '0')
      && DecimalValue(digits) == n
  }

  /** The summary of `shown` and `n` has the summary shape. */
  lemma {:induction false} SummaryPieces(r: string, shown: string, n: nat)
    requires r == Summary(shown, n)
    ensures SummaryShape(r, shown, n)
  {
    FourPieces(shown, " +", NatToString(n), " more");
    DecimalRoundTrip(n);
  }

  /** The pieces of a four-part concatenation can be sliced back out. */
  lemma {:induction false} FourPieces(a: string, b: string, c: string, d: string)
    ensures var r := a + b + c + d;
      && r[..|a|] == a
      && r[|a|..|a| + |b|] == b
      && r[|a| + |b|..|r| - |d|] == c
      && r[|r| - |d|..] == d
  {
  }

  /** `substring(0, maxLength)` clamps a negative end to 0. */
  function CutPoint(maxLength: int): nat
  {
    if maxLength < 0 then 0 else maxLength
  }

  /**
   * `truncateText`: the text itself when it fits in `maxLength`, otherwise its
   * first `maxLength` characters followed by "...".
   */
  function TruncateText(text: string, maxLength: int): (r: string)
    ensures |text| <= maxLength ==> r == text
    ensures |text| > maxLength ==>
      && |r| == CutPoint(maxLength) + |Ellipsis|
      && r[..CutPoint(maxLength)] == text[..CutPoint(maxLength)]
      && r[CutPoint(maxLength)..] == Ellipsis
  {
    if |text| <= maxLength then text else text[..CutPoint(maxLength)] + Ellipsis
  }

  /** Truncating twice to the same length is the same as truncating once. */
  lemma {:induction false} TruncateTextIdempotent(text: string, maxLength: int)
    ensures TruncateText(TruncateText(text, maxLength), maxLength) == TruncateText(text, maxLength)
  {
    var once := TruncateText(text, maxLength);
    if |text| > maxLength {
      assert once[..CutPoint(maxLength)] == text[..CutPoint(maxLength)];
    }
  }
}
