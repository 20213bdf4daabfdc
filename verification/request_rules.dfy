/** The fixed tables and calendar arithmetic of the request controller
    (backend/controllers/requests.js): the HR form category of a request
    type, the titles a team lead may see, and the Sunday-to-Saturday window
    around a day. */
module RequestRules {
  import opened Common
  import opened RequestModel
  import opened UserModel

  const Unspecified: string := "غير محدد"

  /** `getHRCategory`: the Arabic HR-form label of a request type name, or
      "غير محدد" for any other request type. */
  function HRCategory(kind: string): (category: string)
    ensures category == Unspecified <==> kind !in ["WFH", "VACATION", "LATE_PERMISSION", "EARLY_LEAVE"]
  {
    if kind == "WFH" then "العمل من المنزل"
    else if kind == "VACATION" then "إجازة"
    else if kind == "LATE_PERMISSION" then "اذن تاخير"
    else if kind == "EARLY_LEAVE" then "انصراف مبكر"
    else Unspecified
  }

  /** Every stored request type has its own label: the fallback is never
      reached, and two types never share a label. */
  lemma HRCategoryOfStored(a: RequestType, b: RequestType)
    ensures HRCategory(TypeName(a)) != Unspecified
    ensures HRCategory(TypeName(a)) == HRCategory(TypeName(b)) ==> a == b
  {
  }

  /** `getTeamMemberTitles`: the titles a lead's team is made of; no team for
      any other title, or for an account without one. */
  function TeamMemberTitles(title: Option<Title>): (team: Option<seq<Title>>)
    ensures team.Some? <==> title == Some(FrontendLead) || title == Some(BackendLead)
    ensures title == Some(FrontendLead) ==> team == Some([FrontendLead, FrontendDeveloper, UiUx])
    ensures title == Some(BackendLead) ==> team == Some([BackendLead, BackendDeveloper, Ra])
  {
    match title
    case Some(FrontendLead) => Some([FrontendLead, FrontendDeveloper, UiUx])
    case Some(BackendLead) => Some([BackendLead, BackendDeveloper, Ra])
    case _ => None
  }

  /** A lead belongs to its own team, and the two teams share no title. */
  lemma TeamsDisjoint(t: Title)
    ensures TeamMemberTitles(Some(t)).Some? ==> t in TeamMemberTitles(Some(t)).value
    ensures !(t in TeamMemberTitles(Some(FrontendLead)).value && t in TeamMemberTitles(Some(BackendLead)).value)
  {
  }

  /** The Sunday of the week holding `today` (`today - getDay()`); the
      window ends on the Saturday six days later. */
  function WeekStart(today: Day): (sunday: Day)
    ensures Weekday(sunday) == 0
    ensures sunday <= today <= sunday + 6
  {
    var x := today + 4;
    assert x == 7 * (x / 7) + x % 7;
    today - Weekday(today)
  }

  /** The window is the only Sunday-to-Saturday span that holds `today`. */
  lemma {:induction false} WeekStartUnique(today: Day, s: Day)
    requires Weekday(s) == 0 && s <= today <= s + 6
    ensures s == WeekStart(today)
  {
    var w := WeekStart(today);
    var a, b := s + 4, w + 4;
    assert a == 7 * (a / 7) && b == 7 * (b / 7);
    assert -7 < a - b < 7;
    assert a - b == 7 * (a / 7 - b / 7);
  }

  /** Inside a week, the offset from Sunday is the weekday: index 5 is
      always the Friday. */
  lemma WeekdayOfOffset(sunday: Day, i: int)
    requires Weekday(sunday) == 0 && 0 <= i < 7
    ensures Weekday(sunday + i) == i
  {
    var a := sunday + 4;
    assert a == 7 * (a / 7);
    assert sunday + i + 4 == 7 * (a / 7) + i;
  }

  /** The day is in the Sunday-to-Saturday window starting at `sunday`. */
  predicate InWeek(d: Day, sunday: Day) {
    sunday <= d <= sunday + 6
  }
}
