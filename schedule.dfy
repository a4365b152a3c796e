/**
 * The watering schedule: how the next watering day follows from a watering
 * day and an interval, and the urgency label the plant list shows.
 * Calendar dates are whole day numbers; `d + 1` is the day after `d`.
 */
module Schedule {

  /** A calendar date as a day number. */
  type Day = int

  /** `day + timedelta(days=interval)`: the day the plant is next due. */
  function NextWatering(day: Day, interval: int): Day
  {
    day + interval
  }

  /** The due-date annotation printed next to a plant in the list. */
  datatype Urgency = Overdue | DueToday | DueTomorrow | NotDue

  /**
   * The if/elif chain of the listing: the first test that holds picks the
   * label, and a plant due two or more days ahead gets none.
   */
  function Classify(next: Day, today: Day): (u: Urgency)
    ensures u == Overdue <==> next < today
    ensures u == DueToday <==> next == today
    ensures u == DueTomorrow <==> next == NextWatering(today, 1)
    ensures u == NotDue <==> next > today + 1
  {
    if next < today then Overdue
    else if next == today then DueToday
    else if next == NextWatering(today, 1) then DueTomorrow
    else NotDue
  }

  /** How pressing a label is: 0 for none up to 3 for overdue. */
  function Pressure(u: Urgency): nat
  {
    match u
    case NotDue => 0
    case DueTomorrow => 1
    case DueToday => 2
    case Overdue => 3
  }

  /** With the due day fixed, a label only grows more pressing as days pass. */
  lemma PressureGrowsWithTime(next: Day, today: Day, later: Day)
    requires today <= later
    ensures Pressure(Classify(next, today)) <= Pressure(Classify(next, later))
  {
  }

  /**
   * The label of a plant on the day it was watered depends only on its
   * interval: none from two days on, tomorrow for 1, today for 0, and
   * overdue for an interval below zero (the source does not reject one).
   */
  lemma LabelOnWateringDay(today: Day, interval: int)
    ensures Classify(NextWatering(today, interval), today)
         == if interval < 0 then Overdue
            else if interval == 0 then DueToday
            else if interval == 1 then DueTomorrow
            else NotDue
  {
  }
}
