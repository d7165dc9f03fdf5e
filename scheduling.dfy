/**
 * The scheduling problem both encoders build: a name, resources with capacities, activities
 * with durations and resource usages, precedences "before.end <= after.start" and the
 * quality metrics. Resources and activities are referred to by their position.
 */
module Scheduling {

  datatype Resource = Resource(name: string, capacity: int)

  /** The activity consumes `amount` of the resource at position `resource`. */
  datatype Usage = Usage(resource: nat, amount: int)

  datatype Activity = Activity(name: string, duration: int, usages: seq<Usage>)

  /** The activity at `before` ends no later than the activity at `after` starts. */
  datatype Precedence = Precedence(before: nat, after: nat)

  datatype Metric = MinimizeMakespan

  datatype SchedulingProblem = SchedulingProblem(
    name: string,
    resources: seq<Resource>,
    activities: seq<Activity>,
    precedences: seq<Precedence>,
    metrics: seq<Metric>)
  {
    /** Every usage names an existing resource and every precedence two existing activities. */
    predicate WellFormed() {
      && (forall i, k :: 0 <= i < |activities| && 0 <= k < |activities[i].usages| ==>
            activities[i].usages[k].resource < |resources|)
      && (forall e :: e in precedences ==> e.before < |activities| && e.after < |activities|)
    }

    /** add_resource: the new resource is the last one. */
    function AddResource(name: string, capacity: int): SchedulingProblem {
      this.(resources := resources + [Resource(name, capacity)])
    }

    /** add_activity: the new activity is the last one and uses nothing yet. */
    function AddActivity(name: string, duration: int): SchedulingProblem {
      this.(activities := activities + [Activity(name, duration, [])])
    }

    /** activity.uses(resource, amount) */
    function Uses(activity: nat, resource: nat, amount: int): SchedulingProblem
      requires activity < |activities|
    {
      var a := activities[activity];
      this.(activities := activities[activity := a.(usages := a.usages + [Usage(resource, amount)])])
    }

    /** add_constraint(LE(before.end, after.start)) */
    function AddPrecedence(before: nat, after: nat): SchedulingProblem {
      this.(precedences := precedences + [Precedence(before, after)])
    }

    /** add_quality_metric(MinimizeMakespan()) */
    function AddMinimizeMakespan(): SchedulingProblem {
      this.(metrics := metrics + [MinimizeMakespan])
    }
  }

  /** activity.uses on the activity just added extends the usages of that last activity only. */
  lemma UsesLast(p: SchedulingProblem, done: seq<Activity>, a: Activity, resource: nat, amount: int)
    requires p.activities == done + [a]
    ensures p.Uses(|done|, resource, amount)
      == p.(activities := done + [a.(usages := a.usages + [Usage(resource, amount)])])
  {
    assert (done + [a])[|done| := a.(usages := a.usages + [Usage(resource, amount)])]
      == done + [a.(usages := a.usages + [Usage(resource, amount)])];
  }

  /** SchedulingProblem(name): nothing added yet. */
  function EmptyProblem(name: string): SchedulingProblem {
    SchedulingProblem(name, [], [], [], [])
  }
}
