/** StatusUtils.localizeResourceStatusToDefaultLanguage: a resource status to its localized name. */
module StatusUtils {
  import opened Wrappers
  import opened Domain

  /** The message key of a status the switch knows, None for every other status. */
  function StatusMessageKey(status: string): (k: Option<string>)
  {
    match status
    case "VALID" => Some("l11")
    case "DRAFT" => Some("l12")
    case "SUPERSEDED" => Some("l13")
    case "INVALID" => Some("l14")
    case "RETIRED" => Some("l15")
    case "INCOMPLETE" => Some("l16")
    case "SUGGESTED" => Some("l17")
    case _ => None
  }

  /** The known statuses with their keys, in the order the switch lists them. */
  const KnownStatuses: seq<(string, string)> := [
    ("VALID", "l11"), ("DRAFT", "l12"), ("SUPERSEDED", "l13"), ("INVALID", "l14"),
    ("RETIRED", "l15"), ("INCOMPLETE", "l16"), ("SUGGESTED", "l17")]

  /** null stays null, a known status becomes the message of its key in `locale`, and any
      other status is returned as it is. */
  function LocalizeResourceStatusToDefaultLanguage(status: Option<string>, messages: MessageSource, locale: string)
    : (r: Option<string>)
    ensures status.None? <==> r.None?
  {
    match status
    case None => None
    case Some(s) =>
      match StatusMessageKey(s)
      case Some(key) => Some(messages(key, locale))
      case None => Some(s)
  }

  /** The switch is exactly the table: a status has a key iff it is listed, with that key. */
  lemma StatusMessageKeyTable(status: string)
    ensures StatusMessageKey(status).Some? <==> exists i :: 0 <= i < |KnownStatuses| && KnownStatuses[i].0 == status
    ensures forall i :: 0 <= i < |KnownStatuses| && KnownStatuses[i].0 == status ==>
              StatusMessageKey(status) == Some(KnownStatuses[i].1)
  {
    if StatusMessageKey(status).Some? {
      var i := if status == "VALID" then 0 else if status == "DRAFT" then 1 else if status == "SUPERSEDED" then 2
        else if status == "INVALID" then 3 else if status == "RETIRED" then 4 else if status == "INCOMPLETE" then 5 else 6;
      assert KnownStatuses[i].0 == status;
    }
  }

  /** Every known status is read from the message source under its own key. */
  lemma KnownStatusLocalized(status: string, messages: MessageSource, locale: string)
    requires StatusMessageKey(status).Some?
    ensures LocalizeResourceStatusToDefaultLanguage(Some(status), messages, locale)
            == Some(messages(StatusMessageKey(status).value, locale))
  {
  }

  /** An unknown non-null status goes through unchanged. */
  lemma UnknownStatusUnchanged(status: string, messages: MessageSource, locale: string)
    requires forall i :: 0 <= i < |KnownStatuses| ==> KnownStatuses[i].0 != status
    ensures LocalizeResourceStatusToDefaultLanguage(Some(status), messages, locale) == Some(status)
  {
    StatusMessageKeyTable(status);
  }

  /** Distinct known statuses use distinct keys. */
  lemma StatusMessageKeyInjective(a: string, b: string)
    requires StatusMessageKey(a).Some? && StatusMessageKey(a) == StatusMessageKey(b)
    ensures a == b
  {
  }
}
