/** The cell-value helpers of ExportServiceImpl. `language` is the export language and
    `messages` the message source. */
module ExportHelpers {
  import opened Wrappers
  import opened Domain
  import opened Strings

  /** checkEmptyValue: null becomes the empty string, anything else is kept. */
  function CheckEmptyValue(value: Option<string>): (r: string)
    ensures value.None? ==> r == ""
    ensures value.Some? ==> r == value.value
  {
    value.GetOr("")
  }

  /** A blank cell comes exactly from a null or empty value. */
  lemma CheckEmptyValueBlank(value: Option<string>)
    ensures CheckEmptyValue(value) == "" <==> IsEmpty(value)
  {
  }

  /** formatDateToExport and formatDateToExportWithMinutesInHelsinkiTimezone: null gives "",
      any other value its rendering. The two differ only in the formatter, passed as `format`
      (dd/MM/yyyy for a date; for a date-time, with hours and minutes, read as UTC and shown in
      the Europe/Ljubljana zone, whatever the method name says). */
  function DateCell(format: DateTime -> string, date: Option<DateTime>): (r: string)
    ensures date.None? ==> r == ""
    ensures date.Some? ==> r == format(date.value)
  {
    match date
    case None => ""
    case Some(d) => format(d)
  }

  /** getUserName: "first last" when the user is known and both names are non-empty,
      otherwise the placeholder message l18. */
  function GetUserName(users: Uuid -> Option<UserDto>, messages: MessageSource, language: string, userId: Uuid)
    : (r: string)
    ensures var u := users(userId);
      if u.Some? && !IsEmpty(u.value.firstName) && !IsEmpty(u.value.lastName)
      then r == u.value.firstName.value + " " + u.value.lastName.value
      else r == messages("l18", language)
  {
    match users(userId)
    case Some(UserDto(Some(firstName), Some(lastName))) =>
      if firstName != "" && lastName != "" then firstName + " " + lastName else messages("l18", language)
    case _ => messages("l18", language)
  }

  /** A name that is not the placeholder has the space between first and last name. */
  lemma UserNameHasSpace(users: Uuid -> Option<UserDto>, messages: MessageSource, language: string, userId: Uuid)
    requires GetUserName(users, messages, language, userId) != messages("l18", language)
    ensures ' ' in GetUserName(users, messages, language, userId)
  {
    var u := users(userId).value;
    var r := GetUserName(users, messages, language, userId);
    assert r[|u.firstName.value|] == ' ';
  }

  /** The organisations column: "-" for none, otherwise the labels joined by ", ". */
  function OrganizationsText(organizations: Option<seq<Organization>>, labelOf: (Organization, string) -> string,
    language: string): string
  {
    if organizations.None? || organizations.value == [] then "-"
    else Join(", ", OrganizationLabels(organizations.value, labelOf, language))
  }

  function OrganizationLabels(organizations: seq<Organization>, labelOf: (Organization, string) -> string,
    language: string): (r: seq<string>)
    ensures |r| == |organizations|
    ensures forall i :: 0 <= i < |r| ==> r[i] == labelOf(organizations[i], language)
  {
    if organizations == [] then []
    else
      OrganizationLabels(organizations[..|organizations| - 1], labelOf, language)
      + [labelOf(organizations[|organizations| - 1], language)]
  }

  /** getOrganizationsOfCommentRound: the StringBuffer with the `first` flag. */
  method GetOrganizationsOfCommentRound(organizations: Option<seq<Organization>>,
    labelOf: (Organization, string) -> string, language: string)
    returns (r: string)
    ensures r == OrganizationsText(organizations, labelOf, language)
  {
    var buffer := "";
    var first := true;
    if organizations.Some? && organizations.value != [] {
      var orgs := organizations.value;
      var i := 0;
      while i < |orgs|
        invariant 0 <= i <= |orgs|
        invariant first <==> i == 0
        invariant i == 0 ==> buffer == ""
        invariant i > 0 ==> buffer == Join(", ", OrganizationLabels(orgs[..i], labelOf, language))
      {
        assert orgs[..i + 1][..i] == orgs[..i];
        if !first {
          buffer := buffer + ", ";
        } else {
          first := false;
        }
        buffer := buffer + labelOf(orgs[i], language);
        if i > 0 {
          JoinSnoc(", ", OrganizationLabels(orgs[..i], labelOf, language), labelOf(orgs[i], language));
        }
        i := i + 1;
      }
      assert orgs[..|orgs|] == orgs;
    } else {
      buffer := buffer + "-";
    }
    r := buffer;
  }

  /** With one organisation the column is its label; with more, the labels in order with ", "
      between each two. */
  lemma OrganizationsTextShape(organizations: seq<Organization>, labelOf: (Organization, string) -> string,
    language: string)
    requires |organizations| >= 1
    ensures |organizations| == 1 ==>
      OrganizationsText(Some(organizations), labelOf, language) == labelOf(organizations[0], language)
    ensures |organizations| >= 2 ==>
      OrganizationsText(Some(organizations), labelOf, language)
      == OrganizationsText(Some(organizations[..|organizations| - 1]), labelOf, language) + ", "
         + labelOf(organizations[|organizations| - 1], language)
  {
    if |organizations| >= 2 {
      var pre := organizations[..|organizations| - 1];
      JoinSnoc(", ", OrganizationLabels(pre, labelOf, language), labelOf(organizations[|organizations| - 1], language));
    }
  }

  // ----- localized maps (Map<String, String>, as its entries in iteration order)

  /** A Map has one entry per key. */
  predicate DistinctKeys(entries: LocalizedText) {
    forall i, j :: 0 <= i < j < |entries| ==> entries[i].0 != entries[j].0
  }

  /** Map.get: the value under `key`, None when absent. */
  function Lookup(entries: LocalizedText, key: string): (r: Option<string>)
    ensures r.Some? <==> exists i :: 0 <= i < |entries| && entries[i].0 == key
    ensures DistinctKeys(entries) ==>
      forall i :: 0 <= i < |entries| && entries[i].0 == key ==> r == Some(entries[i].1)
  {
    if entries == [] then None
    else if entries[0].0 == key then Some(entries[0].1)
    else
      var r := Lookup(entries[1..], key);
      assert forall i :: 1 <= i < |entries| ==> entries[1..][i - 1] == entries[i];
      r
  }

  /** The index of the first entry with a non-empty value. */
  function FirstNonEmpty(entries: LocalizedText): (r: Option<nat>)
    ensures r.Some? ==> r.value < |entries| && entries[r.value].1 != ""
                        && forall j :: 0 <= j < r.value ==> entries[j].1 == ""
    ensures r.None? ==> forall j :: 0 <= j < |entries| ==> entries[j].1 == ""
  {
    if entries == [] then None
    else if entries[0].1 != "" then Some(0)
    else
      match FirstNonEmpty(entries[1..])
      case None => None
      case Some(k) => Some(k + 1)
  }

  /** What localizeSourceLabel returns: the label in the export language when non-empty,
      else the first non-empty label tagged with its language, else the plain lookup. */
  function SourceLabelText(sourceLabel: LocalizedText, language: string): Option<string> {
    var localized := Lookup(sourceLabel, language);
    if !IsEmpty(localized) then localized
    else match FirstNonEmpty(sourceLabel)
      case Some(k) => Some(sourceLabel[k].1 + "(" + sourceLabel[k].0 + ")")
      case None => localized
  }

  /** localizeSourceLabel: the lookup, then the entry iterator with its early return. */
  method LocalizeSourceLabel(sourceLabel: LocalizedText, language: string) returns (r: Option<string>)
    ensures r == SourceLabelText(sourceLabel, language)
  {
    var localized := Lookup(sourceLabel, language);
    if localized.None? || localized.value == "" {
      var i := 0;
      while i < |sourceLabel|
        invariant 0 <= i <= |sourceLabel|
        invariant forall j :: 0 <= j < i ==> sourceLabel[j].1 == ""
      {
        var entry := sourceLabel[i];
        if entry.1 != "" {
          FirstNonEmptyIs(sourceLabel, i);
          return Some(entry.1 + "(" + entry.0 + ")");
        }
        i := i + 1;
      }
      FirstNonEmptyNone(sourceLabel);
    }
    r := localized;
  }

  lemma FirstNonEmptyIs(entries: LocalizedText, i: nat)
    requires i < |entries| && entries[i].1 != ""
    requires forall j :: 0 <= j < i ==> entries[j].1 == ""
    ensures FirstNonEmpty(entries) == Some(i)
  {
    var r := FirstNonEmpty(entries);
    assert r.Some? by { assert entries[i].1 != ""; }
  }

  lemma FirstNonEmptyNone(entries: LocalizedText)
    requires forall j :: 0 <= j < |entries| ==> entries[j].1 == ""
    ensures FirstNonEmpty(entries) == None
  {
  }

  /** The export language wins whenever it has a non-empty label. */
  lemma SourceLabelPrefersLanguage(sourceLabel: LocalizedText, language: string, i: nat)
    requires DistinctKeys(sourceLabel)
    requires i < |sourceLabel| && sourceLabel[i].0 == language && sourceLabel[i].1 != ""
    ensures SourceLabelText(sourceLabel, language) == Some(sourceLabel[i].1)
  {
  }

  /** The result is null only when there is no label in the export language and no
      non-empty label at all. */
  lemma SourceLabelNull(sourceLabel: LocalizedText, language: string)
    ensures SourceLabelText(sourceLabel, language).None? <==>
      (Lookup(sourceLabel, language).None? && forall j :: 0 <= j < |sourceLabel| ==> sourceLabel[j].1 == "")
  {
  }

  // ----- formatResourceLabel

  /** One entry of a resource label: "KEY: value". */
  function LabelLine(entry: (string, string)): (r: string)
    ensures |r| > 0
  {
    ToUpper(entry.0) + ": " + entry.1
  }

  function LabelLines(resourceLabel: LocalizedText): (r: seq<string>)
    ensures |r| == |resourceLabel|
    ensures forall i :: 0 <= i < |resourceLabel| ==> r[i] == LabelLine(resourceLabel[i])
  {
    if resourceLabel == [] then [] else LabelLines(resourceLabel[..|resourceLabel| - 1]) + [LabelLine(resourceLabel[|resourceLabel| - 1])]
  }

  /** The entries one per line, then the local name on a line of its own when given. */
  function ResourceLabelText(resourceLabel: LocalizedText, localName: Option<string>): string {
    Join("\n", LabelLines(resourceLabel)) + (if localName.Some? then "\nlocalName: " + localName.value else "")
  }

  lemma LabelLinesSnoc(resourceLabel: LocalizedText, i: nat)
    requires i < |resourceLabel|
    ensures LabelLines(resourceLabel[..i + 1]) == LabelLines(resourceLabel[..i]) + [LabelLine(resourceLabel[i])]
  {
    assert resourceLabel[..i + 1][..i] == resourceLabel[..i];
  }

  lemma AppendTwo(a: string, b: string, c: string)
    ensures a + b + c == a + (b + c)
  {
  }

  /** One entry of formatResourceLabel's loop: a newline when the text is not empty, then
      the entry's line. */
  lemma LabelStep(lines: seq<string>, before: string, pair: (string, string), after: string)
    requires before == Join("\n", lines)
    requires |lines| > 0 <==> |before| > 0
    requires after == (if |before| > 0 then before + "\n" else before) + ToUpper(pair.0) + ": " + pair.1
    ensures after == Join("\n", lines + [LabelLine(pair)]) && |after| > 0
  {
    if |before| > 0 {
      LabelStepNext(lines, before, pair, after);
    } else {
      LabelStepFirst(lines, before, pair, after);
    }
  }

  lemma LabelStepNext(lines: seq<string>, before: string, pair: (string, string), after: string)
    requires before == Join("\n", lines) && lines != []
    requires after == before + "\n" + ToUpper(pair.0) + ": " + pair.1
    ensures after == Join("\n", lines + [LabelLine(pair)])
  {
    JoinSnoc("\n", lines, LabelLine(pair));
    assert after == before + "\n" + LabelLine(pair);
  }

  lemma LabelStepFirst(lines: seq<string>, before: string, pair: (string, string), after: string)
    requires lines == [] && before == []
    requires after == before + ToUpper(pair.0) + ": " + pair.1
    ensures after == Join("\n", lines + [LabelLine(pair)])
  {
    assert lines + [LabelLine(pair)] == [LabelLine(pair)];
    assert before + ToUpper(pair.0) == ToUpper(pair.0);
  }

  /** formatResourceLabel: a newline goes before every entry but the first, because every
      entry leaves the text non-empty. */
  method FormatResourceLabel(resourceLabel: LocalizedText, localName: Option<string>) returns (labelOut: string)
    ensures labelOut == ResourceLabelText(resourceLabel, localName)
  {
    labelOut := "";
    ghost var lines: seq<string> := [];
    var i := 0;
    while i < |resourceLabel|
      invariant 0 <= i <= |resourceLabel|
      invariant lines == LabelLines(resourceLabel[..i]) && |lines| == i
      invariant labelOut == Join("\n", lines)
      invariant i > 0 <==> |labelOut| > 0
    {
      var pair := resourceLabel[i];
      ghost var before := labelOut;
      if |labelOut| > 0 {
        labelOut := labelOut + "\n";
      }
      labelOut := labelOut + ToUpper(pair.0) + ": " + pair.1;
      LabelStep(lines, before, pair, labelOut);
      LabelLinesSnoc(resourceLabel, i);
      lines := lines + [LabelLine(pair)];
      i := i + 1;
    }
    assert resourceLabel[..|resourceLabel|] == resourceLabel;
    ghost var joined := labelOut;
    if localName.Some? {
      labelOut := labelOut + "\nlocalName: " + localName.value;
      AppendTwo(joined, "\nlocalName: ", localName.value);
    } else {
      assert joined + "" == joined;
    }
  }

  /** Without a local name and with one entry the text is just "KEY: value"; a local name
      always ends the text. */
  lemma ResourceLabelShape(resourceLabel: LocalizedText, localName: Option<string>)
    ensures |resourceLabel| == 1 && localName.None? ==> ResourceLabelText(resourceLabel, localName) == LabelLine(resourceLabel[0])
    ensures localName.Some? ==> exists prefix :: ResourceLabelText(resourceLabel, localName) == prefix + "\nlocalName: " + localName.value
    ensures resourceLabel == [] && localName.None? ==> ResourceLabelText(resourceLabel, localName) == ""
  {
    if localName.Some? {
      var prefix := Join("\n", LabelLines(resourceLabel));
      assert ResourceLabelText(resourceLabel, localName) == prefix + "\nlocalName: " + localName.value;
    }
  }

  // ----- localizeSourceType / localizeRoundStatus

  function SourceTypeKey(containerType: string): Option<string> {
    match containerType
    case "codelist" => Some("l1")
    case "terminology" => Some("l2")
    case "datamodel" => Some("l3")
    case "library" => Some("l4")
    case "profile" => Some("l5")
    case "commentround" => Some("l6")
    case _ => None
  }

  /** localizeSourceType: a known container type becomes its message, any other is kept. */
  function LocalizeSourceType(containerType: string, messages: MessageSource, language: string): (r: string)
    ensures SourceTypeKey(containerType).None? ==> r == containerType
    ensures SourceTypeKey(containerType).Some? ==> r == messages(SourceTypeKey(containerType).value, language)
  {
    match SourceTypeKey(containerType)
    case Some(key) => messages(key, language)
    case None => containerType
  }

  function RoundStatusKey(status: string): Option<string> {
    match status
    case "INPROGRESS" => Some("l7")
    case "ENDED" => Some("l8")
    case "INCOMPLETE" => Some("l9")
    case "AWAIT" => Some("l10")
    case _ => None
  }

  /** localizeRoundStatus: a known round status becomes its message, any other is kept. */
  function LocalizeRoundStatus(status: string, messages: MessageSource, language: string): (r: string)
    ensures RoundStatusKey(status).None? ==> r == status
    ensures RoundStatusKey(status).Some? ==> r == messages(RoundStatusKey(status).value, language)
  {
    match RoundStatusKey(status)
    case Some(key) => messages(key, language)
    case None => status
  }

  /** Both switches send distinct values to distinct keys, and the two key ranges are apart. */
  lemma SwitchKeysInjective(a: string, b: string)
    ensures SourceTypeKey(a).Some? && SourceTypeKey(a) == SourceTypeKey(b) ==> a == b
    ensures RoundStatusKey(a).Some? && RoundStatusKey(a) == RoundStatusKey(b) ==> a == b
    ensures SourceTypeKey(a).Some? && RoundStatusKey(b).Some? ==> SourceTypeKey(a) != RoundStatusKey(b)
  {
  }
}
