/** The dataset dialog of `gpq_downloader/dialog.py`: the URLs a filled-in
    form stands for, the decision taken when the user presses OK, and the
    dialog's reaction to the signals of a validation run it started. Widgets
    are reduced to what they hold: the checked radio button, the URL text,
    the checked boxes and the selected combo entries. */
module Dialog {
  import opened Common
  import opened Text
  import opened Schema
  import opened Catalog
  import opened Validation

  /** Which radio button is checked. A saved selection that names no
      button leaves none checked. */
  datatype Mode = CustomUrl | OvertureMaps | SourceCoop | OtherSources | NoneChecked

  /** The state of the form when OK is pressed. */
  datatype Form = Form(
    mode: Mode,
    urlText: string,                 // the custom URL line edit
    checkedThemes: set<string>,      // keys of the checked Overture boxes, `base` included
    checkedSubtypes: set<string>,    // checked base subtype boxes
    sourceCoopChoice: string,        // current text of the Source Cooperative combo
    otherChoice: string)             // current text of the Hugging Face combo

  const SubtypeField: string := "{subtype}"

  /** `template.format(subtype=value)`. */
  function Format(template: string, value: string): string {
    ReplaceAll(template, SubtypeField, value)
  }

  /** The value substituted for `{subtype}` for a non-base Overture theme. */
  function TypeName(theme: string): (r: string)
    ensures theme == "transportation" ==> r == "segment"
    ensures theme == "divisions" ==> r == "division_area"
    ensures theme == "addresses" ==> r == "*"
    ensures theme !in {"transportation", "divisions", "addresses"} ==>
              IsPrefix(r, theme) && (|r| > 0 ==> r[|r| - 1] != 's')
              && (forall k | |r| <= k < |theme| :: theme[k] == 's')
  {
    if theme == "transportation" then "segment"
    else if theme == "divisions" then "division_area"
    else if theme == "addresses" then "*"
    else RStrip(theme, {'s'})
  }

  /** The type names of the themes the catalog ships. */
  lemma TypeNamesOfShippedThemes()
    ensures TypeName("buildings") == "building"
    ensures TypeName("places") == "place"
    ensures TypeName("transportation") == "segment"
    ensures TypeName("addresses") == "*"
    ensures TypeName("divisions") == "division_area"
  {
    assert RStrip("buildings", {'s'}) == RStrip("building", {'s'}) == "building";
    assert RStrip("places", {'s'}) == RStrip("place", {'s'}) == "place";
  }

  /** The checked non-base themes, in catalog order. */
  function CheckedThemes(entries: seq<Preset>, checked: set<string>): (r: seq<Preset>)
    ensures forall p :: p in r <==> p in entries && p.key != "base" && p.key in checked
  {
    if |entries| == 0 then []
    else if entries[0].key != "base" && entries[0].key in checked then
      [entries[0]] + CheckedThemes(entries[1..], checked)
    else CheckedThemes(entries[1..], checked)
  }

  /** The URL of one non-base theme entry that has a template. */
  function ThemeUrl(p: Preset): string
    requires p.urlTemplate.Some?
  {
    Format(p.urlTemplate.value, TypeName(p.key))
  }

  /** One URL per checked non-base theme, in catalog order; a checked theme
      without `url_template` raises `KeyError`. */
  function ThemeUrls(entries: seq<Preset>, checked: set<string>): (r: Result<seq<string>>)
    ensures r.Ok? ==> |r.value| <= |entries|
  {
    if |entries| == 0 then Ok([])
    else
      var p := entries[0];
      var rest := ThemeUrls(entries[1..], checked);
      if p.key == "base" || p.key !in checked then rest
      else
        match p.urlTemplate
        case None => Crash("KeyError: 'url_template'")
        case Some(_) =>
          match rest
          case Crash(m) => Crash(m)
          case Ok(us) => Ok([ThemeUrl(p)] + us)
  }

  /** The theme URLs raise exactly when some checked non-base theme lacks
      a template. */
  lemma {:induction false} ThemeUrlsRaiseIff(entries: seq<Preset>, checked: set<string>)
    ensures ThemeUrls(entries, checked).Crash?
            <==> exists p :: p in CheckedThemes(entries, checked) && p.urlTemplate.None?
    decreases |entries|
  {
    if |entries| > 0 {
      ThemeUrlsRaiseIff(entries[1..], checked);
      var p := entries[0];
      var later := CheckedThemes(entries[1..], checked);
      if p.key == "base" || p.key !in checked {
        assert CheckedThemes(entries, checked) == later;
      } else {
        assert CheckedThemes(entries, checked) == [p] + later;
        assert p in CheckedThemes(entries, checked);
      }
    }
  }

  /** The URLs of a run of theme entries that all have templates, one per
      entry and in the same order. */
  function UrlsOf(ts: seq<Preset>): (r: seq<string>)
    requires forall p :: p in ts ==> p.urlTemplate.Some?
    ensures |r| == |ts|
    ensures forall i :: 0 <= i < |ts| ==> r[i] == ThemeUrl(ts[i])
  {
    if |ts| == 0 then [] else [ThemeUrl(ts[0])] + UrlsOf(ts[1..])
  }

  /** When nothing raises, the theme URLs are the URLs of the checked
      non-base themes, in catalog order. */
  lemma {:induction false} ThemeUrlsInOrder(entries: seq<Preset>, checked: set<string>)
    requires ThemeUrls(entries, checked).Ok?
    ensures forall p :: p in CheckedThemes(entries, checked) ==> p.urlTemplate.Some?
    ensures ThemeUrls(entries, checked).value == UrlsOf(CheckedThemes(entries, checked))
    decreases |entries|
  {
    if |entries| > 0 {
      ThemeUrlsInOrder(entries[1..], checked);
      var p := entries[0];
      var later := CheckedThemes(entries[1..], checked);
      if p.key != "base" && p.key in checked {
        assert CheckedThemes(entries, checked) == [p] + later;
        assert ([p] + later)[1..] == later;
      } else {
        assert CheckedThemes(entries, checked) == later;
      }
    }
  }

  /** One URL per checked base subtype, in the order of the `subtypes` list. */
  function BaseUrls(template: string, subtypes: seq<string>, checked: set<string>): (r: seq<string>)
    ensures |r| <= |subtypes|
    ensures forall u :: u in r ==> exists s :: s in subtypes && s in checked && u == Format(template, s)
    ensures forall s :: s in subtypes && s in checked ==> Format(template, s) in r
  {
    if |subtypes| == 0 then []
    else
      var rest := BaseUrls(template, subtypes[1..], checked);
      if subtypes[0] in checked then [Format(template, subtypes[0])] + rest else rest
  }

  /** A subtype list split in two gives the URLs of the first part, then
      those of the second: the URLs follow the list's order. */
  lemma {:induction false} BaseUrlsAppend(template: string, a: seq<string>, b: seq<string>, checked: set<string>)
    ensures BaseUrls(template, a + b, checked) == BaseUrls(template, a, checked) + BaseUrls(template, b, checked)
    decreases |a|
  {
    if |a| == 0 {
      assert a + b == b;
    } else {
      assert (a + b)[0] == a[0];
      assert (a + b)[1..] == a[1..] + b;
      BaseUrlsAppend(template, a[1..], b, checked);
    }
  }

  /** A single subtype gives its URL exactly when it is checked. */
  lemma BaseUrlsOne(template: string, s: string, checked: set<string>)
    ensures BaseUrls(template, [s], checked) == if s in checked then [Format(template, s)] else []
  {
    assert [s][1..] == [];
  }

  /** The Overture branch of `get_urls`: the non-base boxes in catalog order,
      then the base box, whose URLs are produced one per checked subtype. */
  function OvertureUrls(presets: Presets, f: Form): Result<seq<string>> {
    match GroupNamed(presets, "overture")
    case None => Crash("KeyError: 'overture'")
    case Some(g) =>
      match ThemeUrls(g.presets, f.checkedThemes)
      case Crash(m) => Crash(m)
      case Ok(themes) =>
        if "base" !in f.checkedThemes then Ok(themes)
        else match EntryNamed(g.presets, "base")
          case None => Crash("KeyError: 'base'")
          case Some(b) =>
            var sub := BaseUrls(b.urlTemplate.GetOr(""), b.subtypes, f.checkedSubtypes);
            if |sub| > 0 && b.urlTemplate.None? then Crash("KeyError: 'url_template'")
            else Ok(themes + sub)
  }

  /** `next(d for d in group.values() if d['display_name'] == choice)`: an
      entry reached before a match that has no display name raises. */
  function FindByDisplayName(ps: seq<Preset>, choice: string): (r: Result<Option<Preset>>)
    ensures r.Ok? && r.value.Some? ==> r.value.value in ps && r.value.value.displayName == Some(choice)
    ensures r.Ok? && r.value.None? ==> forall p :: p in ps ==> p.displayName.Some? && p.displayName.value != choice
    ensures r.Crash? ==> exists p :: p in ps && p.displayName.None?
  {
    if |ps| == 0 then Ok(None)
    else match ps[0].displayName
      case None => Crash("KeyError: 'display_name'")
      case Some(d) => if d == choice then Ok(Some(ps[0])) else FindByDisplayName(ps[1..], choice)
  }

  /** The Source Cooperative and Hugging Face branches: the URL of the entry
      whose display name is selected, or nothing. */
  function ChosenUrl(presets: Presets, group: string, choice: string): (r: Result<seq<string>>)
    ensures r.Ok? ==> |r.value| <= 1
  {
    match GroupNamed(presets, group)
    case None => Crash("KeyError: '" + group + "'")
    case Some(g) =>
      match FindByDisplayName(g.presets, choice)
      case Crash(m) => Crash(m)
      case Ok(None) => Ok([])
      case Ok(Some(d)) =>
        if d.url.None? then Crash("KeyError: 'url'") else Ok([d.url.value])
  }

  /** `get_urls`. */
  function GetUrls(presets: Presets, f: Form): Result<seq<string>> {
    match f.mode
    case CustomUrl => Ok([Strip(f.urlText)])
    case OvertureMaps => OvertureUrls(presets, f)
    case SourceCoop => ChosenUrl(presets, "source_cooperative", f.sourceCoopChoice)
    case OtherSources => ChosenUrl(presets, "other", f.otherChoice)
    case NoneChecked => Ok([])
  }

  /** What pressing OK does. */
  datatype Decision = Accept | Warn(message: string) | StartValidation(url: string)

  const SelectOne: string := "Please select at least one dataset"
  const BadScheme: string := "URL must start with http://, https://, s3://, hf://, or file://"

  predicate HasAllowedScheme(url: string) {
    IsPrefix("http://", url) || IsPrefix("https://", url) || IsPrefix("s3://", url)
    || IsPrefix("file://", url) || IsPrefix("hf://", url)
  }

  /** `validate_and_accept`: nothing selected is refused; Overture and the
      catalog sources are accepted outright; a custom URL must carry an
      allowed scheme and is then validated before the dialog closes. */
  function ValidateAndAccept(presets: Presets, f: Form): (r: Result<Decision>)
    ensures r.Ok? && r.value.StartValidation? ==> f.mode == CustomUrl && r.value.url == Strip(f.urlText)
  {
    match GetUrls(presets, f)
    case Crash(m) => Crash(m)
    case Ok(urls) =>
      if |urls| == 0 then Ok(Warn(SelectOne))
      else if f.mode == OvertureMaps then Ok(Accept)
      else if f.mode == CustomUrl then
        if HasAllowedScheme(urls[0]) then Ok(StartValidation(urls[0])) else Ok(Warn(BadScheme))
      else Ok(Accept)
  }

  // ---- Properties of the form ----

  /** A custom form stands for exactly its stripped URL text, so an empty
      entry is refused for its scheme, never as an empty selection. */
  lemma CustomUrlIsValidatedExactlyWhenSchemeAllowed(presets: Presets, f: Form)
    requires f.mode == CustomUrl
    ensures GetUrls(presets, f) == Ok([Strip(f.urlText)])
    ensures ValidateAndAccept(presets, f)
         == (if HasAllowedScheme(Strip(f.urlText)) then Ok(StartValidation(Strip(f.urlText)))
             else Ok(Warn(BadScheme)))
  {
  }

  /** Only a custom URL is ever validated from the dialog; every other
      successful form either closes the dialog or asks for a selection,
      and the latter exactly when the form stands for no URL. */
  lemma PresetFormsAreNeverValidated(presets: Presets, f: Form)
    requires f.mode != CustomUrl
    ensures var d := ValidateAndAccept(presets, f);
            d.Ok? ==> (d.value == Warn(SelectOne) <==> GetUrls(presets, f) == Ok([]))
                      && (d.value != Warn(SelectOne) ==> d.value == Accept)
  {
  }

  /** With the shipped Overture catalog, the Overture URLs are the checked
      themes' URLs followed by one URL per checked base subtype; every
      shipped entry has a template, so nothing raises. */
  lemma {:induction false} ThemesWithTemplatesNeverRaise(entries: seq<Preset>, checked: set<string>)
    requires forall p :: p in entries ==> p.urlTemplate.Some?
    ensures ThemeUrls(entries, checked).Ok?
  {
    if |entries| > 0 {
      ThemesWithTemplatesNeverRaise(entries[1..], checked);
    }
  }

  /** Checking a theme adds its URL; the base box alone adds one URL per
      checked subtype and nothing when no subtype is checked. */
  lemma OvertureUrlsInOrder(presets: Presets, f: Form)
    requires f.mode == OvertureMaps
    requires GroupNamed(presets, "overture").Some?
    requires var g := GroupNamed(presets, "overture").value;
             forall p :: p in g.presets ==> p.urlTemplate.Some?
    ensures var g := GroupNamed(presets, "overture").value;
            var themes := ThemeUrls(g.presets, f.checkedThemes);
            themes.Ok?
            && ("base" !in f.checkedThemes ==> GetUrls(presets, f) == themes)
            && ("base" in f.checkedThemes && EntryNamed(g.presets, "base").Some? ==>
                  var b := EntryNamed(g.presets, "base").value;
                  GetUrls(presets, f)
                  == Ok(themes.value + BaseUrls(b.urlTemplate.value, b.subtypes, f.checkedSubtypes)))
  {
    var g := GroupNamed(presets, "overture").value;
    ThemesWithTemplatesNeverRaise(g.presets, f.checkedThemes);
  }

  /** A catalog choice stands for the URL of the first entry with the
      selected display name. */
  lemma {:induction false} ChoiceFindsFirstNamedEntry(ps: seq<Preset>, choice: string, i: nat)
    requires i < |ps| && ps[i].displayName == Some(choice)
    requires forall j :: 0 <= j < i ==> ps[j].displayName.Some? && ps[j].displayName.value != choice
    ensures FindByDisplayName(ps, choice) == Ok(Some(ps[i]))
  {
    if i > 0 {
      assert ps[0].displayName.Some? && ps[0].displayName.value != choice;
      ChoiceFindsFirstNamedEntry(ps[1..], choice, i - 1);
    }
  }

  // ---- Reaction to a validation run ----

  /** What the dialog does in response to one validation signal. */
  datatype Effect =
    | LabelText(message: string)                              // progress label
    | Complete(ok: bool, message: string, results: Profile)   // validation_complete.emit
    | Accepted                                                // self.accept()
    | Warned(message: string)                                 // warning box
    | Rejected                                                // self.reject()

  /** The dictionary `show_bbox_warning` reports, whatever the run found. */
  const DeclaredWithoutBbox: Profile := Profile(None, Some(false), None, Some(DefaultGeometry))

  const Cancelled: string := "Download cancelled by user."

  /** `show_bbox_warning` with the user's answer, and `handle_validation_result`. */
  function React(s: Signal, yes: bool): seq<Effect> {
    match s
    case Progress(m) => [LabelText(m)]
    case NeedsBboxWarning =>
      if yes then [Complete(true, Successful, DeclaredWithoutBbox), Accepted]
      else [Complete(false, Cancelled, DeclaredWithoutBbox)]
    case Finished(ok, m, res) =>
      if ok then [Complete(true, m, res), Accepted]
      else [Warned(m), Complete(false, m, res)]
  }

  /** The effects of a whole run, signals handled in emission order, the
      user giving the same answer to every warning. */
  function ReactAll(signals: seq<Signal>, yes: bool): (r: seq<Effect>)
    ensures Accepted in r <==>
              (exists i :: 0 <= i < |signals|
                 && ((signals[i].NeedsBboxWarning? && yes) || (signals[i].Finished? && signals[i].ok)))
  {
    if |signals| == 0 then []
    else
      var r := React(signals[0], yes) + ReactAll(signals[1..], yes);
      assert forall i :: 0 < i < |signals| ==> signals[i] == signals[1..][i - 1];
      r
  }

  /** The current dialog never rejects itself in reaction to a run: the
      `canceled` signal that closing its progress dialog emits runs
      `cancel_validation`, which only cleans up. */
  lemma {:induction false} NeverRejects(signals: seq<Signal>, yes: bool)
    ensures Rejected !in ReactAll(signals, yes)
  {
    if |signals| > 0 {
      NeverRejects(signals[1..], yes);
      assert Rejected !in React(signals[0], yes);
    }
  }

  /** The dialog closes exactly when the run finished successfully or the
      user accepted the bbox warning. Declining the warning does not stop
      a successful run from closing the dialog afterwards. */
  lemma ClosesUnlessFailedAndDeclined(url: string, presets: Presets, probe: Probe, yes: bool)
    ensures var s := RunValidation(url, presets, probe).signals;
            Accepted in ReactAll(s, yes)
            <==> s[|s| - 1].ok || (yes && NeedsBboxWarning in s)
  {
    FinishedExactlyOnceLast(url, presets, probe);
    AcceptedIff(RunValidation(url, presets, probe).signals, yes);
  }

  /** For signals that end in their only `finished`. */
  lemma AcceptedIff(s: seq<Signal>, yes: bool)
    requires |s| > 0 && s[|s| - 1].Finished?
    requires forall i | 0 <= i < |s| - 1 :: !s[i].Finished?
    ensures Accepted in ReactAll(s, yes) <==> s[|s| - 1].ok || (yes && NeedsBboxWarning in s)
  {
    if yes && NeedsBboxWarning in s {
      var i :| 0 <= i < |s| && s[i] == NeedsBboxWarning;
      assert s[i].NeedsBboxWarning? && yes;
    }
    if s[|s| - 1].ok {
      assert s[|s| - 1].Finished? && s[|s| - 1].ok;
    }
  }

  /** Reacting to a run in two parts is reacting to each part in turn. */
  lemma {:induction false} ReactAllAppend(a: seq<Signal>, b: seq<Signal>, yes: bool)
    ensures ReactAll(a + b, yes) == ReactAll(a, yes) + ReactAll(b, yes)
  {
    if |a| > 0 {
      assert (a + b)[0] == a[0];
      assert (a + b)[1..] == a[1..] + b;
      ReactAllAppend(a[1..], b, yes);
      calc {
        ReactAll(a + b, yes);
        React(a[0], yes) + ReactAll(a[1..] + b, yes);
        React(a[0], yes) + (ReactAll(a[1..], yes) + ReactAll(b, yes));
        (React(a[0], yes) + ReactAll(a[1..], yes)) + ReactAll(b, yes);
        ReactAll(a, yes) + ReactAll(b, yes);
      }
    } else {
      assert a + b == b;
    }
  }

  /** An inspection that finds no bbox column of either kind warns, then
      succeeds without one. */
  lemma InspectionWithoutBbox(probe: Probe)
    requires probe.schema.Answered? && !HasBboxStruct(probe.schema.value)
    requires probe.metadata.Answered?
    requires var found := CheckBboxMetadata(probe.metadata.value); found.None? || found.value == ""
    ensures Inspect(probe)
         == [NeedsBboxWarning, Finished(true, WithoutBbox, Defaults.(schema := Some(probe.schema.value)))]
  {
  }

  lemma RunWithoutBbox(url: string, presets: Presets, probe: Probe)
    requires probe.connectError.None? && probe.setupError.None? && NeedsValidation(presets, url)
    requires probe.schema.Answered? && !HasBboxStruct(probe.schema.value)
    requires probe.metadata.Answered?
    requires var found := CheckBboxMetadata(probe.metadata.value); found.None? || found.value == ""
    ensures RunValidation(url, presets, probe).signals
         == [Progress("Connecting to data source..."), Progress("Checking data format..."),
             NeedsBboxWarning, Finished(true, WithoutBbox, Defaults.(schema := Some(probe.schema.value)))]
  {
    InspectionWithoutBbox(probe);
  }

  /** A source without a bbox column that the user declines: the dialog
      reports the cancellation and the success, and closes anyway. The
      effects are listed in the order the signals were emitted. */
  lemma DecliningAfterCleanInspection(url: string, presets: Presets, probe: Probe)
    requires probe.connectError.None? && probe.setupError.None? && NeedsValidation(presets, url)
    requires probe.schema.Answered? && !HasBboxStruct(probe.schema.value)
    requires probe.metadata.Answered?
    requires var found := CheckBboxMetadata(probe.metadata.value); found.None? || found.value == ""
    ensures ReactAll(RunValidation(url, presets, probe).signals, false)
         == [LabelText("Connecting to data source..."), LabelText("Checking data format..."),
             Complete(false, Cancelled, DeclaredWithoutBbox),
             Complete(true, WithoutBbox, Defaults.(schema := Some(probe.schema.value))),
             Accepted]
  {
    RunWithoutBbox(url, presets, probe);
    DeclinedThenFinished("Connecting to data source...", "Checking data format...",
                         WithoutBbox, Defaults.(schema := Some(probe.schema.value)));
  }

  /** Two progress messages, a declined warning and a successful end. */
  lemma DeclinedThenFinished(m1: string, m2: string, m: string, res: Profile)
    ensures ReactAll([Progress(m1), Progress(m2), NeedsBboxWarning, Finished(true, m, res)], false)
         == [LabelText(m1), LabelText(m2), Complete(false, Cancelled, DeclaredWithoutBbox),
             Complete(true, m, res), Accepted]
  {
    var s4 := [Finished(true, m, res)];
    var s3 := [NeedsBboxWarning] + s4;
    var s2 := [Progress(m2)] + s3;
    var s1 := [Progress(m1)] + s2;
    assert s4[1..] == [];
    assert ReactAll(s4, false) == [Complete(true, m, res), Accepted];
    assert s3[1..] == s4;
    assert ReactAll(s3, false) == [Complete(false, Cancelled, DeclaredWithoutBbox)] + ReactAll(s4, false);
    assert s2[1..] == s3;
    assert ReactAll(s2, false) == [LabelText(m2)] + ReactAll(s3, false);
    assert s1[1..] == s2;
    assert ReactAll(s1, false) == [LabelText(m1)] + ReactAll(s2, false);
    assert s1 == [Progress(m1), Progress(m2), NeedsBboxWarning, Finished(true, m, res)];
  }
}
