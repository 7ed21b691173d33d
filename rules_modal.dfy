/** The editor for e-mail processing rules
    (src/components/Email/EmailProcessingRulesModal.tsx): a form holding a
    name, an active flag, a priority and two lists, the conditions and the
    actions, which the handlers grow, shrink and edit in place and which never
    become empty. */
module RulesModal {
  import opened Common
  import opened Domain

  // ---------------------------------------------------------------------------
  // Conditions and actions
  // ---------------------------------------------------------------------------

  function DefaultCondition(): EmailCondition
  {
    EmailCondition("subject", "contains", "", false)
  }

  function DefaultAction(): EmailAction
  {
    EmailAction("create_ticket", "true")
  }

  /** `{ ...condition, [field]: value }` for the four fields a condition
      row edits. */
  datatype ConditionEdit = SetField(field: string) | SetOperator(operator: string) | SetValue(value: string)
                         | SetCaseSensitive(caseSensitive: bool)

  function EditCondition(c: EmailCondition, edit: ConditionEdit): (r: EmailCondition)
    ensures edit.SetField? ==> r == c.(field := edit.field)
    ensures edit.SetOperator? ==> r == c.(operator := edit.operator)
    ensures edit.SetValue? ==> r == c.(value := edit.value)
    ensures edit.SetCaseSensitive? ==> r == c.(caseSensitive := edit.caseSensitive)
  {
    match edit
    case SetField(f) => c.(field := f)
    case SetOperator(o) => c.(operator := o)
    case SetValue(v) => c.(value := v)
    case SetCaseSensitive(b) => c.(caseSensitive := b)
  }

  /** `{ ...action, [field]: value }` for the two fields of an action row. */
  datatype ActionEdit = SetKind(kind: string) | SetActionValue(value: string)

  function EditAction(a: EmailAction, edit: ActionEdit): (r: EmailAction)
    ensures edit.SetKind? ==> r == a.(kind := edit.kind)
    ensures edit.SetActionValue? ==> r == a.(value := edit.value)
  {
    match edit
    case SetKind(k) => a.(kind := k)
    case SetActionValue(v) => a.(value := v)
  }

  /** An edit of a row changes that row in exactly the edited field. */
  lemma EditConditionTouchesOneField(c: EmailCondition, edit: ConditionEdit)
    ensures var r := EditCondition(c, edit);
      && (r.field != c.field ==> edit.SetField?)
      && (r.operator != c.operator ==> edit.SetOperator?)
      && (r.value != c.value ==> edit.SetValue?)
      && (r.caseSensitive != c.caseSensitive ==> edit.SetCaseSensitive?)
  {
  }

  /** `technicians`: the users offered for the assign action. */
  function Technicians(users: seq<User>): (r: seq<User>)
    ensures forall k :: 0 <= k < |r| ==> r[k].role == Technician && r[k] in users
    ensures forall k :: 0 <= k < |users| && users[k].role == Technician ==> users[k] in r
    ensures IsSubsequence(r, users)
  {
    FilterIsSubsequence(users, (u: User) => u.role == Technician);
    Filter(users, (u: User) => u.role == Technician)
  }

  /** What the form hands to `createEmailProcessingRule`. */
  datatype RuleDraft = RuleDraft(name: string, isActive: bool, priority: int, conditions: seq<EmailCondition>,
                                 actions: seq<EmailAction>)

  // ---------------------------------------------------------------------------
  // The form
  // ---------------------------------------------------------------------------

  class RulesForm {
    var name: string
    var isActive: bool
    var priority: int
    var conditions: seq<EmailCondition>
    var actions: seq<EmailAction>

    /** Neither list is ever empty. */
    predicate Valid()
      reads this
    {
      |conditions| >= 1 && |actions| >= 1
    }

    /** The state the form opens in and returns to after a submit. */
    predicate IsFresh()
      reads this
    {
      name == "" && isActive && priority == 1 && conditions == [DefaultCondition()] && actions == [DefaultAction()]
    }

    constructor ()
      ensures Valid() && IsFresh()
    {
      name := "";
      isActive := true;
      priority := 1;
      conditions := [DefaultCondition()];
      actions := [DefaultAction()];
    }

    method SetName(n: string)
      requires Valid()
      modifies this
      ensures Valid() && name == n
      ensures isActive == old(isActive) && priority == old(priority)
      ensures conditions == old(conditions) && actions == old(actions)
    {
      name := n;
    }

    /** The priority input after `parseInt`; a text that is not a number is
        not modelled. */
    method SetPriority(p: int)
      requires Valid()
      modifies this
      ensures Valid() && priority == p
      ensures name == old(name) && isActive == old(isActive)
      ensures conditions == old(conditions) && actions == old(actions)
    {
      priority := p;
    }

    method SetActive(b: bool)
      requires Valid()
      modifies this
      ensures Valid() && isActive == b
      ensures name == old(name) && priority == old(priority)
      ensures conditions == old(conditions) && actions == old(actions)
    {
      isActive := b;
    }

    /** `addCondition`: a default condition at the end. */
    method AddCondition()
      requires Valid()
      modifies this
      ensures Valid() && conditions == old(conditions) + [DefaultCondition()]
      ensures name == old(name) && isActive == old(isActive) && priority == old(priority) && actions == old(actions)
    {
      conditions := conditions + [DefaultCondition()];
    }

    /** `removeCondition`: does nothing to the last remaining condition. */
    method RemoveCondition(index: int)
      requires Valid()
      modifies this
      ensures Valid()
      ensures conditions == if |old(conditions)| > 1 then RemoveIndex(old(conditions), index) else old(conditions)
      ensures name == old(name) && isActive == old(isActive) && priority == old(priority) && actions == old(actions)
    {
      if |conditions| > 1 {
        RemoveIndexKeepsRest(conditions, index);
        conditions := RemoveIndex(conditions, index);
      }
    }

    /** `updateCondition`: one field of the row at `index`. */
    method UpdateCondition(index: int, edit: ConditionEdit)
      requires Valid()
      modifies this
      ensures Valid() && conditions == UpdateAt(old(conditions), index, c => EditCondition(c, edit))
      ensures name == old(name) && isActive == old(isActive) && priority == old(priority) && actions == old(actions)
    {
      conditions := UpdateAt(conditions, index, c => EditCondition(c, edit));
    }

    /** `addAction`: a default action at the end. */
    method AddAction()
      requires Valid()
      modifies this
      ensures Valid() && actions == old(actions) + [DefaultAction()]
      ensures name == old(name) && isActive == old(isActive) && priority == old(priority)
      ensures conditions == old(conditions)
    {
      actions := actions + [DefaultAction()];
    }

    /** `removeAction`: does nothing to the last remaining action. */
    method RemoveAction(index: int)
      requires Valid()
      modifies this
      ensures Valid()
      ensures actions == if |old(actions)| > 1 then RemoveIndex(old(actions), index) else old(actions)
      ensures name == old(name) && isActive == old(isActive) && priority == old(priority)
      ensures conditions == old(conditions)
    {
      if |actions| > 1 {
        RemoveIndexKeepsRest(actions, index);
        actions := RemoveIndex(actions, index);
      }
    }

    /** `updateAction`: one field of the row at `index`. */
    method UpdateAction(index: int, edit: ActionEdit)
      requires Valid()
      modifies this
      ensures Valid() && actions == UpdateAt(old(actions), index, a => EditAction(a, edit))
      ensures name == old(name) && isActive == old(isActive) && priority == old(priority)
      ensures conditions == old(conditions)
    {
      actions := UpdateAt(actions, index, a => EditAction(a, edit));
    }

    /** `handleSubmit`: refuses a form without a name (or, were it possible,
        without conditions or actions) and leaves it as it is; otherwise
        hands the rule over and resets the form. */
    method Submit() returns (rule: Option<RuleDraft>)
      requires Valid()
      modifies this
      ensures Valid()
      ensures rule.None? <==> old(name) == ""
      ensures rule.None? ==>
        (name == old(name) && isActive == old(isActive) && priority == old(priority)
         && conditions == old(conditions) && actions == old(actions))
      ensures rule.Some? ==>
        (rule.value == RuleDraft(old(name), old(isActive), old(priority), old(conditions), old(actions)) && IsFresh())
    {
      if name == "" || |conditions| == 0 || |actions| == 0 {
        return None;
      }
      rule := Some(RuleDraft(name, isActive, priority, conditions, actions));
      name := "";
      isActive := true;
      priority := 1;
      conditions := [DefaultCondition()];
      actions := [DefaultAction()];
    }
  }
}
