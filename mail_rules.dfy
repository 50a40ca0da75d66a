/** The rule tables of src/app/mail.js: MailDaemon.ActionTypes (lines 33-45),
    MailDaemon.ArchiveRules (lines 24-27) and MailDaemon.getRules (lines 280-319). */
module MailRules {
  import opened Wrappers
  import opened SearchFilter
  import Text

  datatype ActionKind =
    | ApplyLabel | ClearLabel
    | MoveToArchive | MoveToInbox | MoveToTrash | MoveToSpam
    | MarkAsRead | MarkAsUnread | MarkAsImportant | MarkAsUnimportant
    | RemoveLabel | StarMessages | UnstarMessages

  /** MailDaemon.ActionTypes: the string each action kind is written as. */
  function TypeName(k: ActionKind): string {
    match k
    case ApplyLabel => "Apply label"
    case ClearLabel => "Clear all labels"
    case MoveToArchive => "Move to archive"
    case MoveToInbox => "Move to inbox"
    case MoveToTrash => "Move to trash"
    case MoveToSpam => "Move to spam"
    case MarkAsRead => "Mark as read"
    case MarkAsUnread => "Mark as unread"
    case MarkAsImportant => "Mark as important"
    case MarkAsUnimportant => "Mark as unimportant"
    case RemoveLabel => "Remove label"
    case StarMessages => "Star messages"
    case UnstarMessages => "Unstar messages"
  }

  /** The cases of applyRule's `switch (action.type)`, in the switch's order.
      The switch has no CLEAR_LABEL case. */
  const SwitchOrder: seq<ActionKind> :=
    [ApplyLabel, MarkAsImportant, MarkAsRead, MarkAsUnimportant, MarkAsUnread,
     MoveToArchive, MoveToInbox, MoveToSpam, MoveToTrash, RemoveLabel,
     StarMessages, UnstarMessages]

  /** The first of the cases whose type string equals t. */
  function FirstCase(t: string, cases: seq<ActionKind>): (r: Option<ActionKind>)
    ensures r.Some? ==> r.value in cases && TypeName(r.value) == t
    ensures r.None? ==> forall k :: k in cases ==> TypeName(k) != t
  {
    if cases == [] then None
    else if t == TypeName(cases[0]) then Some(cases[0])
    else FirstCase(t, cases[1..])
  }

  /** The case of applyRule's switch that a type string selects. */
  function SwitchCase(t: string): Option<ActionKind> {
    FirstCase(t, SwitchOrder)
  }

  /** Every kind but CLEAR_LABEL selects its own case; CLEAR_LABEL selects none. */
  lemma SwitchCaseOfTypeName(k: ActionKind)
    ensures SwitchCase(TypeName(k)) == if k == ClearLabel then None else Some(k)
  {
    if k == ClearLabel {
      assert forall j :: j in SwitchOrder ==> TypeName(j) != TypeName(ClearLabel);
    } else {
      assert k in SwitchOrder;
      var r := SwitchCase(TypeName(k));
      assert r.Some?;
      TypeNameInjective(r.value, k);
    }
  }

  /** Distinct kinds have distinct type strings. */
  lemma TypeNameInjective(j: ActionKind, k: ActionKind)
    requires TypeName(j) == TypeName(k)
    ensures j == k
  {
  }

  /** A string selects a case only if it is that kind's name, and the
      kinds' names are the only strings that select one. */
  lemma SwitchCaseSound(t: string)
    ensures SwitchCase(t).Some? <==> exists k :: k != ClearLabel && TypeName(k) == t
    ensures SwitchCase(t).Some? ==> TypeName(SwitchCase(t).value) == t
  {
    if k :| k != ClearLabel && TypeName(k) == t {
      SwitchCaseOfTypeName(k);
    }
  }

  /** MailDaemon.ArchiveRules: days to add to "now" for each category. */
  const ImportantUnreadDays: int := -14
  const ImportantReadDays: int := -7
  const NotImportantUnreadDays: int := -7
  const NotImportantReadDays: int := 3

  const MsPerDay: int := 86400000

  function ArchiveDays(important: bool, read: bool): int {
    if important then (if read then ImportantReadDays else ImportantUnreadDays)
    else (if read then NotImportantReadDays else NotImportantUnreadDays)
  }

  /** An action and a rule (MailAction and MailDaemonAction); `actionType` is the `type` field. */
  datatype Action = Action(actionType: string, parameter1: seq<string>)

  datatype Rule = Rule(searches: seq<string>, actions: seq<Action>)

  /** `limitDate.setDate(limitDate.getDate() + days)`, in UTC. */
  function AddDays(t: int, days: int): int {
    t + days * MsPerDay
  }

  /** The options of one archive search: threads in the inbox of one
      important/read category, older than the category's limit date. */
  function ArchiveOptions(now: int, important: bool, read: bool): SearchOptions {
    SearchOptions(Unset, DateAt(AddDays(now, ArchiveDays(important, read))), Some(important), ["inbox"], Some(read))
  }

  /** The (important, read) categories of the archive rule, in getRules' order. */
  const Categories: seq<(bool, bool)> := [(true, true), (true, false), (false, true), (false, false)]

  /** One archive search per category, in order, each pushed after the ones before it. */
  function ArchiveSearches(now: int, categories: seq<(bool, bool)>): (r: seq<string>)
    ensures |r| == |categories|
  {
    if categories == [] then []
    else
      var c := categories[|categories| - 1];
      ArchiveSearches(now, categories[..|categories| - 1]) + [FilterText(ArchiveOptions(now, c.0, c.1))]
  }

  /** Pushing the search of the next category extends the list by that search. */
  lemma ArchiveSearchesPush(now: int, k: nat)
    requires k < |Categories|
    ensures ArchiveSearches(now, Categories[..k + 1]) ==
      ArchiveSearches(now, Categories[..k]) + [FilterText(ArchiveOptions(now, Categories[k].0, Categories[k].1))]
  {
    assert Categories[..k + 1][..k] == Categories[..k];
  }

  /** The i-th archive search belongs to the i-th category. */
  lemma {:induction false} ArchiveSearchAt(now: int, categories: seq<(bool, bool)>, i: nat)
    requires i < |categories|
    ensures ArchiveSearches(now, categories)[i] == FilterText(ArchiveOptions(now, categories[i].0, categories[i].1))
    decreases |categories|
  {
    var init := categories[..|categories| - 1];
    if i < |categories| - 1 {
      ArchiveSearchAt(now, init, i);
      assert init[i] == categories[i];
    }
  }

  /** The one archive rule: four searches, (important, read) = (T,T), (T,F),
      (F,T), (F,F), and the single action MOVE_TO_ARCHIVE. */
  function ArchiveRule(now: int): Rule {
    Rule(ArchiveSearches(now, Categories), [Action(TypeName(MoveToArchive), [])])
  }

  /** MailDaemon.getRules, with `now` the time `new Date()` read. */
  method GetRules(now: int) returns (rules: seq<Rule>)
    ensures rules == [ArchiveRule(now)]
  {
    var searches: seq<string> := [];
    var limitDate: int;
    var search: string;
    assert Categories[..0] == [];

    // Important read
    limitDate := AddDays(now, ImportantReadDays);
    search := CreateSearchFilter(SearchOptions(Unset, DateAt(limitDate), Some(true), ["inbox"], Some(true)));
    searches := searches + [search];
    ArchiveSearchesPush(now, 0);

    // Important unread
    limitDate := AddDays(now, ImportantUnreadDays);
    search := CreateSearchFilter(SearchOptions(Unset, DateAt(limitDate), Some(true), ["inbox"], Some(false)));
    searches := searches + [search];
    ArchiveSearchesPush(now, 1);

    // Not important read
    limitDate := AddDays(now, NotImportantReadDays);
    search := CreateSearchFilter(SearchOptions(Unset, DateAt(limitDate), Some(false), ["inbox"], Some(true)));
    searches := searches + [search];
    ArchiveSearchesPush(now, 2);

    // Not important unread
    limitDate := AddDays(now, NotImportantUnreadDays);
    search := CreateSearchFilter(SearchOptions(Unset, DateAt(limitDate), Some(false), ["inbox"], Some(false)));
    searches := searches + [search];
    ArchiveSearchesPush(now, 3);
    assert Categories[..4] == Categories;

    var action := Action(TypeName(MoveToArchive), []);
    rules := [Rule(searches, [action])];
  }

  /** The text of an archive search: the limit date in seconds, the important
      and read tokens of its category, and the inbox label. */
  lemma ArchiveSearchText(now: int, important: bool, read: bool)
    ensures FilterText(ArchiveOptions(now, important, read)) ==
      " before:" + Text.SecondsText(AddDays(now, ArchiveDays(important, read)))
      + (if important then " is:important" else " -is:important")
      + " label:inbox"
      + (if read then " is:read" else " is:unread")
  {
    var o := ArchiveOptions(now, important, read);
    FilterTextShape(o);
    assert OptionalText(" after:", BoundText(o.after)) == "";
    assert OptionalText(" before:", BoundText(o.before))
      == " before:" + Text.SecondsText(AddDays(now, ArchiveDays(important, read)));
    assert ImportantText(o.important) == if important then " is:important" else " -is:important";
    assert LabelsText(["inbox"]) == " label:inbox" by {
      assert ["inbox"][1..] == [];
    }
    assert ReadText(o.read) == if read then " is:read" else " is:unread";
    var before := " before:" + Text.SecondsText(AddDays(now, ArchiveDays(important, read)));
    assert "" + before == before;
  }
}
