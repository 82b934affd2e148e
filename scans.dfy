/** The AI scans list: a search box that keeps the scans whose asset name or id holds
    the search text, ignoring case, and the colours, backgrounds, icons and labels the
    list gives each scan status. */
module Scans {
  import opened Wrappers
  import opened JsString
  import opened Seqs

  datatype ScanStatus = Processing | Completed | Failed

  datatype Scan = Scan(
    id: string,
    assetName: string,
    uploadedAt: string,
    status: ScanStatus,
    accuracy: int,
    detectedItems: int,
    fileName: string)

  /** The status as the data spells it. */
  function StatusText(s: ScanStatus): string {
    match s
    case Processing => "processing"
    case Completed => "completed"
    case Failed => "failed"
  }

  /** `getStatusColor`. */
  function StatusColor(s: ScanStatus): string {
    match s
    case Completed => "text-green-600"
    case Processing => "text-blue-600"
    case Failed => "text-red-600"
  }

  /** `getStatusBg`. */
  function StatusBg(s: ScanStatus): string {
    match s
    case Completed => "bg-green-50 dark:bg-green-900/20"
    case Processing => "bg-blue-50 dark:bg-blue-900/20"
    case Failed => "bg-red-50 dark:bg-red-900/20"
  }

  /** The icons `getStatusIcon` draws. */
  datatype Glyph = CheckCircle | Clock | AlertCircle

  datatype Icon = Icon(glyph: Glyph, className: string)

  /** `getStatusIcon`. */
  function StatusIcon(s: ScanStatus): Icon {
    match s
    case Completed => Icon(CheckCircle, "w-5 h-5 text-green-600")
    case Processing => Icon(Clock, "w-5 h-5 text-blue-600 animate-spin")
    case Failed => Icon(AlertCircle, "w-5 h-5 text-red-600")
  }

  /** The three mappings are total and tell the statuses apart: different statuses get
      different colours, backgrounds, glyphs and spellings. */
  lemma StatusStylesDistinct(s: ScanStatus, t: ScanStatus)
    requires s != t
    ensures StatusColor(s) != StatusColor(t)
    ensures StatusBg(s) != StatusBg(t)
    ensures StatusIcon(s).glyph != StatusIcon(t).glyph
    ensures StatusText(s) != StatusText(t)
  {
    assert StatusColor(s)[5] != StatusColor(t)[5];
    assert StatusBg(s)[3] != StatusBg(t)[3];
    assert StatusText(s)[0] != StatusText(t)[0];
  }

  /** Each icon is drawn in its status's colour. */
  lemma IconInStatusColor(s: ScanStatus)
    ensures Contains(StatusIcon(s).className, StatusColor(s))
  {
    var cls := StatusIcon(s).className;
    var color := StatusColor(s);
    assert cls == "w-5 h-5 " + color + (if s == Processing then " animate-spin" else "");
    assert OccursAt(cls, color, 8);
    ContainsIff(cls, color);
  }

  /** The badge text: the status with its first letter upper-cased. */
  function StatusLabel(s: ScanStatus): (badge: string)
    ensures |badge| == |StatusText(s)| > 0
    ensures badge[0] == UpperChar(StatusText(s)[0]) && badge[1..] == StatusText(s)[1..]
  {
    Capitalize(StatusText(s))
  }

  /** The labels read "Processing", "Completed" and "Failed". */
  lemma StatusLabels()
    ensures StatusLabel(Processing) == "Processing"
    ensures StatusLabel(Completed) == "Completed"
    ensures StatusLabel(Failed) == "Failed"
  {
    assert StatusLabel(Processing) == [UpperChar('p')] + "rocessing";
    assert StatusLabel(Completed) == [UpperChar('c')] + "ompleted";
    assert StatusLabel(Failed) == [UpperChar('f')] + "ailed";
  }

  /** The search test: the lower-cased asset name or id holds the lower-cased term. */
  predicate Matches(scan: Scan, term: string) {
    Contains(ToLower(scan.assetName), ToLower(term)) || Contains(ToLower(scan.id), ToLower(term))
  }

  function MatchesTerm(term: string): Scan -> bool {
    (scan: Scan) => Matches(scan, term)
  }

  /** `filteredScans`. */
  function FilteredScans(scans: seq<Scan>, term: string): (r: seq<Scan>)
    ensures |r| <= |scans|
  {
    Filter(scans, MatchesTerm(term))
  }

  /** The filtered list is the input with some scans left out, in the same order. */
  lemma FilteredIsSubsequence(scans: seq<Scan>, term: string)
    ensures IsSubsequence(FilteredScans(scans, term), scans)
  {
    FilterIsSubsequence(scans, MatchesTerm(term));
  }

  /** A scan is listed exactly when it is in the input and matches the term. */
  lemma FilteredMembers(scans: seq<Scan>, term: string)
    ensures forall scan :: scan in FilteredScans(scans, term) <==> scan in scans && Matches(scan, term)
  {
    FilterMembers(scans, MatchesTerm(term));
  }

  /** An empty search box lists every scan. */
  lemma EmptyTermKeepsAll(scans: seq<Scan>)
    ensures FilteredScans(scans, "") == scans
  {
    forall i | 0 <= i < |scans|
      ensures Matches(scans[i], "")
    {
      ContainsEmpty(ToLower(scans[i].assetName));
    }
    FilterKeepsAll(scans, MatchesTerm(""));
  }

  /** The search ignores the case of the term. */
  lemma TermCaseIgnored(scans: seq<Scan>, term: string)
    ensures FilteredScans(scans, ToLower(term)) == FilteredScans(scans, term)
  {
    ToLowerIdempotent(term);
    FilterSamePredicate(scans, MatchesTerm(ToLower(term)), MatchesTerm(term));
  }

  /** Whether the "No scans found" card is shown. */
  predicate ShowsEmptyCard(scans: seq<Scan>, term: string) {
    |FilteredScans(scans, term)| == 0
  }

  /** The card is shown exactly when no scan matches. */
  lemma EmptyCardWhenNoMatch(scans: seq<Scan>, term: string)
    ensures ShowsEmptyCard(scans, term) <==> forall i :: 0 <= i < |scans| ==> !Matches(scans[i], term)
  {
    var r := FilteredScans(scans, term);
    FilterMembers(scans, MatchesTerm(term));
    if r != [] {
      assert r[0] in r;
      var i :| 0 <= i < |scans| && scans[i] == r[0];
      assert Matches(scans[i], term);
    } else {
      forall i | 0 <= i < |scans|
        ensures !Matches(scans[i], term)
      {
        assert scans[i] in scans && scans[i] !in r;
      }
    }
  }
}
