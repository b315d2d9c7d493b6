/**
 The decision logic of `PokemonScanner.captureAndScan`: when a scan may start, how the
 classifier's free-text reply becomes a label, and how that label is matched against the
 entry list. Camera, canvas capture and the HTTP call itself are outside the model; the
 classifier's reply is an input.
 */
module Scanner {
  import opened Wrappers
  import opened Text
  import opened Pokemon

  /** What the handler can see when the scan button is pressed. */
  datatype ScanEnv = ScanEnv(hasVideo: bool, hasCanvas: bool, cameraActive: bool, apiKey: Option<string>)

  /**
   `candidates?.[0]?.content?.parts?.[0]`: no such part, a part whose `text` is missing
   (so `.trim()` is called on undefined), or a part with text.
   */
  datatype CandidatePart = NoPart | PartWithoutText | PartText(text: string)

  /**
   The classifier call: it failed (network error, non-ok status, unreadable body), or it
   answered with a parsed response whose first candidate part is given.
   */
  datatype Reply = RequestFailed | Answered(part: CandidatePart)

  /** The label used when the classifier gives nothing usable, and its lowercase sentinel. */
  const UnknownLabel: string := "Unknown"
  const UnknownSentinel: string := "unknown"

  /** The default label lowercases to the sentinel, so it never matches an entry. */
  lemma UnknownLabelIsSentinel()
    ensures Lower(UnknownLabel) == UnknownSentinel
  {
    assert UnknownLabel == ['U'] + "nknown";
  }

  /**
   The label read from the reply's first part: `text.trim() || "Unknown"`. None means the
   read threw (a part without text), which the handler treats as a failed scan.
   */
  function Label(part: CandidatePart): (r: Option<string>)
    ensures r.None? <==> part.PartWithoutText?
    ensures r.Some? ==> r.value != "" && NoOuterSpace(r.value)
    ensures part.PartText? && !AllSpace(part.text) ==> r == Some(Trim(part.text))
    ensures part.NoPart? || (part.PartText? && AllSpace(part.text)) ==> r == Some(UnknownLabel)
  {
    LetterIsNotSpace('U');
    LetterIsNotSpace('n');
    match part
    case NoPart => Some(UnknownLabel)
    case PartWithoutText => None
    case PartText(t) => if Trim(t) != "" then Some(Trim(t)) else Some(UnknownLabel)
  }

  /** The entry's name equals the label, ignoring ASCII letter case. */
  predicate NameMatches(e: Entry, guess: string) {
    Lower(e.name) == Lower(guess)
  }

  /** The first index at or after `from` whose entry matches the guess. */
  function FindFrom(catalog: seq<Entry>, guess: string, from: nat): (r: Option<nat>)
    requires from <= |catalog|
    ensures r.Some? ==> from <= r.value < |catalog| && NameMatches(catalog[r.value], guess)
    ensures r.Some? ==> forall j :: from <= j < r.value ==> !NameMatches(catalog[j], guess)
    ensures r.None? ==> forall j :: from <= j < |catalog| ==> !NameMatches(catalog[j], guess)
    decreases |catalog| - from
  {
    if from == |catalog| then None
    else if NameMatches(catalog[from], guess) then Some(from)
    else FindFrom(catalog, guess, from + 1)
  }

  /** Index `i` holds the first entry of the list whose name matches the label. */
  predicate IsFirstMatch(catalog: seq<Entry>, guess: string, i: int) {
    && 0 <= i < |catalog|
    && NameMatches(catalog[i], guess)
    && forall j :: 0 <= j < i ==> !NameMatches(catalog[j], guess)
  }

  /**
   `pokemonList.find(p => p.name.toLowerCase() === label.toLowerCase())`, skipped
   altogether when the label is the sentinel "unknown" in any letter case.
   */
  function Reconcile(guess: string, catalog: seq<Entry>): (r: Option<Entry>)
    ensures Lower(guess) == UnknownSentinel ==> r.None?
    ensures r.Some? ==> r.value in catalog && NameMatches(r.value, guess)
    ensures r.Some? ==> exists i :: IsFirstMatch(catalog, guess, i) && catalog[i] == r.value
    ensures Lower(guess) != UnknownSentinel ==>
      forall i :: IsFirstMatch(catalog, guess, i) ==> r == Some(catalog[i])
    ensures (forall i :: 0 <= i < |catalog| ==> !NameMatches(catalog[i], guess)) ==> r.None?
  {
    if Lower(guess) == UnknownSentinel then None
    else match FindFrom(catalog, guess, 0)
      case None => None
      case Some(i) =>
        assert IsFirstMatch(catalog, guess, i);
        Some(catalog[i])
  }

  /** Labels that differ only in letter case reconcile to the same entry. */
  lemma ReconcileCaseInsensitive(a: string, b: string, catalog: seq<Entry>)
    requires CaseVariants(a, b)
    ensures Reconcile(a, catalog) == Reconcile(b, catalog)
  {
    CaseVariantsIffSameLower(a, b);
    FindFromDependsOnLower(catalog, a, b, 0);
  }

  lemma {:induction false} FindFromDependsOnLower(catalog: seq<Entry>, a: string, b: string, from: nat)
    requires from <= |catalog|
    requires Lower(a) == Lower(b)
    ensures FindFrom(catalog, a, from) == FindFrom(catalog, b, from)
    decreases |catalog| - from
  {
    if from < |catalog| {
      FindFromDependsOnLower(catalog, a, b, from + 1);
    }
  }

  /** What the classifier call led to: the entry identified, and whether the scan failed. */
  datatype Identification = Identification(found: Option<Entry>, failed: bool)

  /** The `try`/`catch` around the classifier call and the lookup. */
  function Identify(reply: Reply, catalog: seq<Entry>): (r: Identification)
    ensures r.failed ==> r.found.None?
    ensures r.failed <==> reply.RequestFailed? || reply.part.PartWithoutText?
    ensures r.found.Some? ==> r.found.value in catalog && reply.Answered? && reply.part.PartText?
                               && NameMatches(r.found.value, Trim(reply.part.text))
    ensures reply.Answered? && reply.part.NoPart? ==> r == Identification(None, false)
  {
    match reply
    case RequestFailed => Identification(None, true)
    case Answered(part) =>
      UnknownLabelIsSentinel();
      match Label(part)
      case None => Identification(None, true)
      case Some(guess) => Identification(Reconcile(guess, catalog), false)
  }

  /** A blank answer is read as "Unknown" and identifies nothing. */
  lemma BlankAnswerIdentifiesNothing(t: string, catalog: seq<Entry>)
    requires AllSpace(t)
    ensures Identify(Answered(PartText(t)), catalog) == Identification(None, false)
  {
    UnknownLabelIsSentinel();
  }

  /** An answer whose trimmed text is a name in the list identifies the first entry of that name. */
  lemma AnswerIdentifiesFirstMatch(t: string, catalog: seq<Entry>, i: int)
    requires Trim(t) != [] && Lower(Trim(t)) != UnknownSentinel
    requires IsFirstMatch(catalog, Trim(t), i)
    ensures Identify(Answered(PartText(t)), catalog).found == Some(catalog[i])
  {
    var g := Trim(t);
    assert Label(PartText(t)) == Some(g);
    assert Reconcile(g, catalog) == Some(catalog[i]);
    assert Identify(Answered(PartText(t)), catalog) == Identification(Reconcile(g, catalog), false);
  }

  /** Trimming keeps two case variants case variants of each other. */
  lemma {:induction false} TrimCaseVariants(s: string, t: string)
    requires CaseVariants(s, t)
    ensures CaseVariants(Trim(s), Trim(t))
  {
    CaseVariantsIffSameLower(s, t);
    TrimLowerCommute(s);
    TrimLowerCommute(t);
    CaseVariantsIffSameLower(Trim(s), Trim(t));
  }

  /** The labels read from two case-variant answers are themselves case variants. */
  lemma {:induction false} LabelCaseVariants(s: string, t: string)
    requires CaseVariants(s, t)
    ensures Label(PartText(s)).Some? && Label(PartText(t)).Some?
    ensures CaseVariants(Label(PartText(s)).value, Label(PartText(t)).value)
  {
    TrimCaseVariants(s, t);
  }

  /** Answers that differ only in letter case identify the same entry. */
  lemma {:induction false} IdentifyCaseInsensitive(s: string, t: string, catalog: seq<Entry>)
    requires CaseVariants(s, t)
    ensures Identify(Answered(PartText(s)), catalog) == Identify(Answered(PartText(t)), catalog)
  {
    LabelCaseVariants(s, t);
    var a, b := Label(PartText(s)).value, Label(PartText(t)).value;
    ReconcileCaseInsensitive(a, b, catalog);
    assert Identify(Answered(PartText(s)), catalog) == Identification(Reconcile(a, catalog), false);
    assert Identify(Answered(PartText(t)), catalog) == Identification(Reconcile(b, catalog), false);
  }

  /** A toast the handler shows. */
  datatype Toast = CameraNotActiveToast | ApiKeyMissingToast | ScanFailedToast | NoMatchToast | ScannedToast(name: string)

  /**
   The observable effects of one press of the scan button: whether the classifier was
   called, the values passed to `onPokemonScanned` and to `fetchPokemonDescription` in
   order, the toasts shown in order, and whether the camera is still running afterwards.
   */
  datatype ScanResult = ScanResult(
    classifierCalled: bool,
    reported: seq<Option<Entry>>,
    descriptionRequests: seq<string>,
    toasts: seq<Toast>,
    cameraActive: bool)

  predicate CameraReady(env: ScanEnv) {
    env.hasVideo && env.hasCanvas && env.cameraActive
  }

  /** `captureAndScan`, with the classifier's reply as an input. */
  function CaptureAndScan(env: ScanEnv, reply: Reply, catalog: seq<Entry>): (r: ScanResult)
    ensures !CameraReady(env) ==>
      r == ScanResult(false, [], [], [CameraNotActiveToast], env.cameraActive)
    ensures CameraReady(env) && !Truthy(env.apiKey) ==>
      r == ScanResult(false, [], [], [ApiKeyMissingToast], env.cameraActive)
    ensures r.classifierCalled <==> CameraReady(env) && Truthy(env.apiKey)
    ensures r.classifierCalled ==> !r.cameraActive && |r.reported| >= 1 && r.reported[0].None?
    ensures reply.RequestFailed? ==> forall k :: 0 <= k < |r.reported| ==> r.reported[k].None?
    ensures forall k :: 0 <= k < |r.reported| && r.reported[k].Some? ==> r.reported[k].value in catalog
    ensures r.classifierCalled ==>
      var found := Identify(reply, catalog).found;
      && r.reported == [None] + (if found.Some? then [found] else [])
      && r.descriptionRequests == (if found.Some? then [found.value.name] else [])
      && r.toasts == (if Identify(reply, catalog).failed then [ScanFailedToast] else [])
                     + (if found.Some? then [ScannedToast(Capitalize(found.value.name))] else [NoMatchToast])
    ensures r.descriptionRequests != [] ==>
      (|r.reported| == 2 && r.reported[1].Some? && r.descriptionRequests == [r.reported[1].value.name])
  {
    if !CameraReady(env) then
      ScanResult(false, [], [], [CameraNotActiveToast], env.cameraActive)
    else if !Truthy(env.apiKey) then
      ScanResult(false, [], [], [ApiKeyMissingToast], env.cameraActive)
    else
      var id := Identify(reply, catalog);
      var failureToasts := if id.failed then [ScanFailedToast] else [];
      match id.found
      case None =>
        ScanResult(true, [None], [], failureToasts + [NoMatchToast], false)
      case Some(e) =>
        ScanResult(true, [None, Some(e)], [e.name], failureToasts + [ScannedToast(Capitalize(e.name))], false)
  }

  /**
   A scan whose answer names an entry of the list reports that entry after the initial
   null, asks for its description, and shows the success toast with the capitalised name.
   */
  lemma MatchingScanReportsEntry(env: ScanEnv, t: string, catalog: seq<Entry>, i: int)
    requires CameraReady(env) && Truthy(env.apiKey)
    requires Trim(t) != [] && Lower(Trim(t)) != UnknownSentinel
    requires IsFirstMatch(catalog, Trim(t), i)
    ensures CaptureAndScan(env, Answered(PartText(t)), catalog)
            == ScanResult(true, [None, Some(catalog[i])], [catalog[i].name],
                          [ScannedToast(Capitalize(catalog[i].name))], false)
  {
    AnswerIdentifiesFirstMatch(t, catalog, i);
  }

  /** A failed classifier call identifies nothing but still shuts the camera down. */
  lemma FailedScanIdentifiesNothing(env: ScanEnv, catalog: seq<Entry>)
    requires CameraReady(env) && Truthy(env.apiKey)
    ensures CaptureAndScan(env, RequestFailed, catalog)
            == ScanResult(true, [None], [], [ScanFailedToast, NoMatchToast], false)
  {
  }
}
