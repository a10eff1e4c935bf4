/** The dashboard's achievement tier and greeting name. */
module Dashboard {
  import opened Wrappers
  import opened UserModel

  datatype Tier = GettingStarted | ProblemSolver | StreakMaster | WeekWarrior

  function TierName(t: Tier): string
  {
    match t
    case WeekWarrior => "Week Warrior"
    case StreakMaster => "Streak Master"
    case ProblemSolver => "Problem Solver"
    case GettingStarted => "Getting Started"
  }

  /** The tier for a streak and a number of completed problems: streak tiers first,
      then the problem count. */
  function Achievement(streak: int, completed: nat): (t: Tier)
    ensures t == WeekWarrior <==> streak >= 7
    ensures t == StreakMaster <==> 3 <= streak < 7
    ensures t == ProblemSolver <==> streak < 3 && completed >= 5
    ensures t == GettingStarted <==> streak < 3 && completed < 5
  {
    if streak >= 7 then WeekWarrior
    else if streak >= 3 then StreakMaster
    else if completed >= 5 then ProblemSolver
    else GettingStarted
  }

  /** The badge text the dashboard shows for a streak and a number of completed problems. */
  function AchievementText(streak: int, completed: nat): (text: string)
    ensures streak >= 7 ==> text == "Week Warrior"
    ensures 3 <= streak < 7 ==> text == "Streak Master"
    ensures streak < 3 && completed >= 5 ==> text == "Problem Solver"
    ensures streak < 3 && completed < 5 ==> text == "Getting Started"
  {
    TierName(Achievement(streak, completed))
  }

  /** Tiers in increasing order. */
  function Rank(t: Tier): nat
  {
    match t
    case GettingStarted => 0
    case ProblemSolver => 1
    case StreakMaster => 2
    case WeekWarrior => 3
  }

  /** A longer streak or more completed problems never lowers the tier. */
  lemma AchievementMonotone(s: int, c: nat, s': int, c': nat)
    requires s <= s' && c <= c'
    ensures Rank(Achievement(s, c)) <= Rank(Achievement(s', c'))
  {
  }

  /** `email.split('@')[0]`: the email up to, not including, its first '@'. */
  function LocalPart(email: string): (r: string)
    ensures r <= email
    ensures '@' !in r
    ensures |r| < |email| ==> email[|r|] == '@'
  {
    if email == [] || email[0] == '@' then []
    else [email[0]] + LocalPart(email[1..])
  }

  /** The three properties of `LocalPart` determine it. */
  lemma {:induction false} LocalPartUnique(email: string, p: string)
    requires p <= email && '@' !in p
    requires |p| < |email| ==> email[|p|] == '@'
    ensures p == LocalPart(email)
  {
    if email != [] && email[0] != '@' {
      assert p != [];
      assert p[0] == email[0];
      assert p[1..] <= email[1..];
      assert forall i :: 0 <= i < |p[1..]| ==> p[1..][i] == p[i + 1];
      LocalPartUnique(email[1..], p[1..]);
    }
  }

  /** `user.name || user.email.split('@')[0]` */
  function DisplayName(name: Option<string>, email: string): (r: string)
    ensures !Blank(name) ==> r == name.value
    ensures Blank(name) ==> r <= email && '@' !in r && (|r| < |email| ==> email[|r|] == '@')
  {
    if !Blank(name) then name.value else LocalPart(email)
  }
}
