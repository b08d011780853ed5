/**
 * The tasks page: its list is a `Boards.Board`; this module adds the status
 * labels and the two status buttons of a task.
 */
module Tasks {
  import opened Boards

  /** `getStatusText`: every status other than the three named ones reads as waiting. */
  function StatusText(status: string): (r: string)
    ensures r == "Ожидает" <==> status !in ["completed", "in_progress", "overdue"]
  {
    match status
    case "completed" => "Завершено"
    case "in_progress" => "В работе"
    case "overdue" => "Просрочено"
    case _ => "Ожидает"
  }

  /** The buttons of a task card, as (caption, target status). */
  const Buttons: seq<(string, string)> := [("Завершить", "completed"), ("В работу", "in_progress")]

  /** A task's buttons: "Завершить" to completed and "В работу" to in progress, each disabled when already there. */
  function TaskActions(t: Card): (r: seq<Action>)
    ensures |r| == 2
    ensures r[0].caption == "Завершить" && r[0].target == "completed" && (r[0].disabled <==> t.status == "completed")
    ensures r[1].caption == "В работу" && r[1].target == "in_progress" && (r[1].disabled <==> t.status == "in_progress")
  {
    StatusButtons(t, Buttons)
  }
}
