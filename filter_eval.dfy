/**
 * The filter evaluator: decides whether a task's tags satisfy a filter tree.
 */
module FilterEval {
  import opened Types

  /** Every `not` node has a child. The evaluator reads `children[0]` of a
      `not`, so a `not` with an empty child list would make it fail. */
  predicate NotsHaveChild(e: FilterExpr) {
    match e
    case And(cs) => forall i :: 0 <= i < |cs| ==> NotsHaveChild(cs[i])
    case Or(cs) => forall i :: 0 <= i < |cs| ==> NotsHaveChild(cs[i])
    case Not(cs) => |cs| >= 1 && forall i :: 0 <= i < |cs| ==> NotsHaveChild(cs[i])
    case Tag(_) => true
    case Empty => true
  }

  /** `evaluateFilter`: a `tag` matches a non-empty value present in the tag
      list, `empty` matches a task without tags, `and`/`or` need every/some
      child (an `or` without children matches everything), and `not` negates
      its first child. */
  function EvaluateFilter(task: Task, e: FilterExpr): bool
    requires NotsHaveChild(e)
  {
    match e
    case Tag(v) => v != "" && v in task.tags
    case Empty => |task.tags| == 0
    case And(cs) => forall i :: 0 <= i < |cs| ==> EvaluateFilter(task, cs[i])
    case Or(cs) => cs == [] || exists i :: 0 <= i < |cs| && EvaluateFilter(task, cs[i])
    case Not(cs) => !EvaluateFilter(task, cs[0])
  }

  /** The verdict depends on the task's tag list only. */
  lemma {:induction false} EvaluateDependsOnlyOnTags(t1: Task, t2: Task, e: FilterExpr)
    requires NotsHaveChild(e)
    requires t1.tags == t2.tags
    ensures EvaluateFilter(t1, e) == EvaluateFilter(t2, e)
  {
    match e
    case And(cs) =>
      forall i | 0 <= i < |cs| ensures EvaluateFilter(t1, cs[i]) == EvaluateFilter(t2, cs[i]) {
        EvaluateDependsOnlyOnTags(t1, t2, cs[i]);
      }
    case Or(cs) =>
      forall i | 0 <= i < |cs| ensures EvaluateFilter(t1, cs[i]) == EvaluateFilter(t2, cs[i]) {
        EvaluateDependsOnlyOnTags(t1, t2, cs[i]);
      }
    case Not(cs) =>
      EvaluateDependsOnlyOnTags(t1, t2, cs[0]);
    case Tag(_) =>
    case Empty =>
  }

  /** The match-all fallbacks: `and([])` and `or([])` accept every task. */
  lemma EmptyConnectivesMatchAll(task: Task)
    ensures EvaluateFilter(task, And([]))
    ensures EvaluateFilter(task, Or([]))
  {
  }

  /** A one-child `not`, as the parser builds it, is an involution. */
  lemma DoubleNegation(task: Task, e: FilterExpr)
    requires NotsHaveChild(e)
    ensures EvaluateFilter(task, Not([Not([e])])) == EvaluateFilter(task, e)
  {
  }

  /** A single-child `and` or `or` means its child, which is why the parser
      may return the child bare. */
  lemma SingletonConnectives(task: Task, e: FilterExpr)
    requires NotsHaveChild(e)
    ensures EvaluateFilter(task, And([e])) == EvaluateFilter(task, e)
    ensures EvaluateFilter(task, Or([e])) == EvaluateFilter(task, e)
  {
    assert [e][0] == e;
  }
}
