/**
 * The projects page: its list is a `Boards.Board`; this module adds the
 * status labels and the three status buttons of a project.
 */
module Projects {
  import opened Boards

  predicate KnownStatus(status: string) {
    status in ["completed", "in_progress", "review", "on_hold", "planning"]
  }

  /** `getStatusText` */
  function StatusText(status: string): (r: string)
    ensures r == "Неизвестно" <==> !KnownStatus(status)
  {
    match status
    case "completed" => "Завершен"
    case "in_progress" => "В работе"
    case "review" => "На проверке"
    case "on_hold" => "Приостановлен"
    case "planning" => "Планирование"
    case _ => "Неизвестно"
  }

  /** Different known statuses get different labels. */
  lemma StatusTextInjective(a: string, b: string)
    requires KnownStatus(a) && KnownStatus(b) && StatusText(a) == StatusText(b)
    ensures a == b
  {
  }

  /** The buttons of a project card, as (caption, target status). */
  const Buttons: seq<(string, string)> := [("Завершить", "completed"), ("В работу", "in_progress"), ("На проверку", "review")]

  /** A project's buttons to completed, in progress and review, each disabled when already there. */
  function ProjectActions(p: Card): (r: seq<Action>)
    ensures |r| == 3
    ensures r[0].caption == "Завершить" && r[0].target == "completed" && (r[0].disabled <==> p.status == "completed")
    ensures r[1].caption == "В работу" && r[1].target == "in_progress" && (r[1].disabled <==> p.status == "in_progress")
    ensures r[2].caption == "На проверку" && r[2].target == "review" && (r[2].disabled <==> p.status == "review")
  {
    StatusButtons(p, Buttons)
  }

  /** At most one of a project's buttons is disabled, and none is for a status the buttons do not set. */
  lemma AtMostOneDisabled(p: Card)
    ensures var r := ProjectActions(p);
            forall i, j :: 0 <= i < j < 3 ==> !(r[i].disabled && r[j].disabled)
    ensures p.status !in ["completed", "in_progress", "review"] ==> forall a :: a in ProjectActions(p) ==> !a.disabled
  {
  }
}
