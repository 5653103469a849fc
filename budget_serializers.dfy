/** budgets/serializers.py: BudgetSerializer's field validators, its duplicate check,
    create(), and the two getters whose presentation differs from the model values. */
module BudgetSerializers {
  import opened Outcomes
  import opened Calendar
  import opened TransactionModels
  import opened BudgetModels
  import opened Decimals

  /** $1,000,000.00 in cents. */
  const MaxBudgetAmount: int := 100000000

  /** validate_amount: more than 0 and at most $1,000,000. */
  function ValidateAmount(value: int): (r: Result<int>)
    ensures r.Ok? <==> 0 < value <= MaxBudgetAmount
    ensures r.Ok? ==> r.value == value
    ensures value <= 0 ==> r == Err(ValidationError("amount", "Amount must be greater than 0"))
    ensures value > MaxBudgetAmount ==> r == Err(ValidationError("amount", "Amount cannot exceed $1,000,000"))
  {
    if value <= 0 then Err(ValidationError("amount", "Amount must be greater than 0"))
    else if value > MaxBudgetAmount then Err(ValidationError("amount", "Amount cannot exceed $1,000,000"))
    else Ok(value)
  }

  /** Python's str.isspace for a single character. */
  predicate IsSpace(c: char) {
    || ('\t' <= c <= '\r')
    || ('\U{1C}' <= c <= '\U{1F}')
    || c == ' ' || c == '\U{85}' || c == '\U{A0}' || c == '\U{1680}'
    || ('\U{2000}' <= c <= '\U{200A}')
    || c == '\U{2028}' || c == '\U{2029}' || c == '\U{202F}' || c == '\U{205F}' || c == '\U{3000}'
  }

  predicate Blank(s: string) {
    forall i :: 0 <= i < |s| ==> IsSpace(s[i])
  }

  /** The first position at or after i that is not whitespace, or |s|. */
  function LeadFrom(s: string, i: nat): (k: nat)
    requires i <= |s|
    ensures i <= k <= |s|
    ensures forall j :: i <= j < k ==> IsSpace(s[j])
    ensures k == |s| || !IsSpace(s[k])
    decreases |s| - i
  {
    if i < |s| && IsSpace(s[i]) then LeadFrom(s, i + 1) else i
  }

  /** The end of the last non-whitespace character before e, or 0. */
  function TrailTo(s: string, e: nat): (k: nat)
    requires e <= |s|
    ensures k <= e
    ensures forall j :: k <= j < e ==> IsSpace(s[j])
    ensures k == 0 || !IsSpace(s[k - 1])
  {
    if e > 0 && IsSpace(s[e - 1]) then TrailTo(s, e - 1) else e
  }

  /** str.strip(): s without its leading and trailing whitespace. Nothing is left
      exactly when s is all whitespace; otherwise the result is the slice of s from its
      first to its last non-whitespace character. */
  function Strip(s: string): (r: string)
    ensures r == [] <==> Blank(s)
    ensures !Blank(s) ==> LeadFrom(s, 0) < TrailTo(s, |s|) && r == s[LeadFrom(s, 0)..TrailTo(s, |s|)]
    ensures r == [] || (!IsSpace(r[0]) && !IsSpace(r[|r| - 1]))
  {
    var k := LeadFrom(s, 0);
    if k == |s| then [] else s[k..TrailTo(s, |s|)]
  }

  /** Stripping a stripped string changes nothing. */
  lemma StripIdempotent(s: string)
    ensures Strip(Strip(s)) == Strip(s)
  {
    var r := Strip(s);
    if r != [] {
      assert LeadFrom(r, 0) == 0;
      assert TrailTo(r, |r|) == |r|;
      assert r[0..|r|] == r;
    }
  }

  /** validate_category: rejects an empty or whitespace-only name, returns it stripped. */
  function ValidateCategory(value: string): (r: Result<string>)
    ensures r.Err? <==> Blank(value)
    ensures r.Err? ==> r.error == ValidationError("category", "Category is required")
    ensures r.Ok? ==> r.value == Strip(value) && r.value != [] && !IsSpace(r.value[0]) && !IsSpace(r.value[|r.value| - 1])
  {
    if |value| == 0 || Strip(value) == [] then Err(ValidationError("category", "Category is required"))
    else Ok(Strip(value))
  }

  /** Validating an accepted category again accepts it unchanged. */
  lemma ValidateCategoryIdempotent(value: string)
    requires ValidateCategory(value).Ok?
    ensures ValidateCategory(ValidateCategory(value).value) == ValidateCategory(value)
  {
    StripIdempotent(value);
  }

  /** The validated input of a budget create or update; a field the request omits is None. */
  datatype BudgetData = BudgetData(
    category: Option<string>, amount: Option<int>, period: Option<Period>, isActive: Option<bool>)

  /** data.get('period', 'monthly'). */
  function PeriodOrMonthly(p: Option<Period>): Period {
    if p.Some? then p.value else Monthly
  }

  /** b is another budget of the user with the requested category and period; on an
      update the instance itself does not count. A missing category matches no row. */
  predicate Clashes(b: Budget, user: UserId, data: BudgetData, instance: Option<nat>) {
    && b.user == user
    && data.category == Some(b.category)
    && b.period == PeriodOrMonthly(data.period)
    && (instance.None? || b.id != instance.value)
  }

  function AnyClash(existing: seq<Budget>, user: UserId, data: BudgetData, instance: Option<nat>): (r: bool)
    ensures r <==> exists i :: 0 <= i < |existing| && Clashes(existing[i], user, data, instance)
  {
    if |existing| == 0 then false
    else
      var rest := AnyClash(existing[1..], user, data, instance);
      assert forall i :: 0 < i < |existing| ==> existing[i] == existing[1..][i - 1];
      assert rest ==> exists i :: 0 <= i < |existing| && Clashes(existing[i], user, data, instance) by {
        if rest {
          var j :| 0 <= j < |existing[1..]| && Clashes(existing[1..][j], user, data, instance);
          assert existing[j + 1] == existing[1..][j];
        }
      }
      Clashes(existing[0], user, data, instance) || rest
  }

  /** The message names the category (Python's None when the request has none) and the
      period looked up. */
  function DuplicateMessage(data: BudgetData): string {
    "A budget for " + (if data.category.Some? then data.category.value else "None")
    + " (" + PeriodName(PeriodOrMonthly(data.period)) + ") already exists"
  }

  /** validate(data): rejects a request whose (user, category, period) another budget
      already holds, active or not. */
  function Validate(existing: seq<Budget>, user: UserId, data: BudgetData, instance: Option<nat>): (r: Result<BudgetData>)
    ensures r.Err? <==> exists i :: 0 <= i < |existing| && Clashes(existing[i], user, data, instance)
    ensures r.Ok? ==> r.value == data
    ensures r.Err? ==> r.error == ValidationError("category", DuplicateMessage(data))
  {
    if AnyClash(existing, user, data, instance) then
      Err(ValidationError("category", DuplicateMessage(data)))
    else Ok(data)
  }

  /** Deactivating or reactivating another budget never changes the verdict. */
  lemma ValidateIgnoresActive(existing: seq<Budget>, user: UserId, data: BudgetData, instance: Option<nat>, i: nat, active: bool)
    requires i < |existing|
    ensures Validate(existing[i := existing[i].(isActive := active)], user, data, instance).Err?
        <==> Validate(existing, user, data, instance).Err?
  {
    var e' := existing[i := existing[i].(isActive := active)];
    if Validate(existing, user, data, instance).Err? {
      var j :| 0 <= j < |existing| && Clashes(existing[j], user, data, instance);
      assert Clashes(e'[j], user, data, instance);
    }
    if Validate(e', user, data, instance).Err? {
      var j :| 0 <= j < |e'| && Clashes(e'[j], user, data, instance);
      assert Clashes(existing[j], user, data, instance);
    }
  }

  /** Without a period the check is made against monthly budgets, even on an update of a
      weekly or yearly budget. */
  lemma ValidateDefaultsToMonthly(existing: seq<Budget>, user: UserId, data: BudgetData, instance: Option<nat>)
    requires data.period.None?
    ensures Validate(existing, user, data, instance).Err?
        <==> Validate(existing, user, data.(period := Some(Monthly)), instance).Err?
  {
    var d' := data.(period := Some(Monthly));
    assert forall b :: Clashes(b, user, data, instance) <==> Clashes(b, user, d', instance);
  }

  /** create(): the owner is always the requesting user; unset fields take the model
      defaults (period monthly, active). */
  function Create(data: BudgetData, user: UserId, id: nat): (b: Budget)
    requires data.category.Some? && data.amount.Some?
    ensures b.user == user && b.id == id
    ensures b.category == data.category.value && b.amount == data.amount.value
    ensures b.period == PeriodOrMonthly(data.period)
    ensures b.isActive == (data.isActive != Some(false))
  {
    Budget(id, user, data.category.value, data.amount.value, PeriodOrMonthly(data.period),
           if data.isActive.Some? then data.isActive.value else true)
  }

  /** A create that passed validate keeps unique_together. */
  lemma ValidatedCreateKeepsUnique(existing: seq<Budget>, user: UserId, data: BudgetData, id: nat)
    requires UniqueTogether(existing)
    requires data.category.Some? && data.amount.Some?
    requires Validate(existing, user, data, None).Ok?
    ensures UniqueTogether(existing + [Create(data, user, id)])
  {
    var nb := Create(data, user, id);
    var bs := existing + [nb];
    forall i, j | 0 <= i < j < |bs|
      ensures !(bs[i].user == bs[j].user && bs[i].category == bs[j].category && bs[i].period == bs[j].period)
    {
      if j == |existing| {
        assert !Clashes(existing[i], user, data, None);
      }
    }
  }

  /** ModelSerializer.update: each field the request carries replaces the instance's,
      a field it omits keeps the instance's value, and the key and the owner stay. */
  function Update(inst: Budget, data: BudgetData): Budget {
    inst.(category := if data.category.Some? then data.category.value else inst.category,
          amount := if data.amount.Some? then data.amount.value else inst.amount,
          period := if data.period.Some? then data.period.value else inst.period,
          isActive := if data.isActive.Some? then data.isActive.value else inst.isActive)
  }

  /** An update changes exactly the fields the request carries: an empty request
      changes nothing, a field it carries takes the requested value, and repeating the
      same update changes nothing more. */
  lemma UpdateMeaning(inst: Budget, data: BudgetData)
    ensures Update(inst, BudgetData(None, None, None, None)) == inst
    ensures Update(inst, data).id == inst.id && Update(inst, data).user == inst.user
    ensures data.category.Some? ==> Update(inst, data).category == data.category.value
    ensures data.period.None? ==> Update(inst, data).period == inst.period
    ensures data.period.Some? ==> Update(inst, data).period == data.period.value
    ensures Update(Update(inst, data), data) == Update(inst, data)
  {
  }

  /** Two budgets of the same user with the same category and period. */
  predicate SameKey(a: Budget, b: Budget) {
    a.user == b.user && a.category == b.category && a.period == b.period
  }

  /** validate as written, on a PATCH that renames a weekly budget onto the category of
      another weekly budget without sending a period: the check looks for a monthly
      duplicate, finds none, and the update then writes a second (user, "Food", weekly). */
  lemma UpdateWithoutPeriodBreaksUnique()
    ensures
      var existing := [Budget(1, 7, "Food", 5000, Weekly, true), Budget(2, 7, "Rent", 5000, Weekly, true)];
      var data := BudgetData(Some("Food"), None, None, None);
      && UniqueTogether(existing)
      && Validate(existing, 7, data, Some(2)).Ok?
      && !UniqueTogether(existing[1 := Update(existing[1], data)])
  {
    var existing := [Budget(1, 7, "Food", 5000, Weekly, true), Budget(2, 7, "Rent", 5000, Weekly, true)];
    var data := BudgetData(Some("Food"), None, None, None);
    assert !Clashes(existing[0], 7, data, Some(2));
    var updated := existing[1 := Update(existing[1], data)];
    assert SameKey(updated[0], updated[1]);
  }

  /** validate as written, on a PATCH that sends only a period: data.get('category') is
      None, the lookup category=None matches no row, and the update then writes a
      second (user, "Food", weekly). */
  lemma UpdateWithoutCategoryBreaksUnique()
    ensures
      var existing := [Budget(1, 7, "Food", 5000, Weekly, true), Budget(2, 7, "Food", 5000, Monthly, true)];
      var data := BudgetData(None, None, Some(Weekly), None);
      && UniqueTogether(existing)
      && Validate(existing, 7, data, Some(2)).Ok?
      && !UniqueTogether(existing[1 := Update(existing[1], data)])
  {
    var existing := [Budget(1, 7, "Food", 5000, Weekly, true), Budget(2, 7, "Food", 5000, Monthly, true)];
    var data := BudgetData(None, None, Some(Weekly), None);
    assert !Clashes(existing[0], 7, data, Some(2));
    var updated := existing[1 := Update(existing[1], data)];
    assert SameKey(updated[0], updated[1]);
  }

  /** The duplicate check an update evidently needs: the category and period the row
      will hold once updated, the instance's own where the request omits them. The
      instance is the requesting user's (the detail view only finds the user's rows),
      so its owner is the user the check filters on. */
  function ValidateUpdate(existing: seq<Budget>, inst: Budget, data: BudgetData): (r: Result<BudgetData>)
    ensures r.Err? <==> exists i :: 0 <= i < |existing| && existing[i].id != inst.id && SameKey(existing[i], Update(inst, data))
    ensures r.Ok? ==> r.value == data
  {
    var after := Update(inst, data);
    var checked := data.(category := Some(after.category), period := Some(after.period));
    assert forall b :: Clashes(b, inst.user, checked, Some(inst.id)) <==> b.id != inst.id && SameKey(b, after);
    match Validate(existing, inst.user, checked, Some(inst.id))
    case Err(e) => Err(e)
    case Ok(_) => Ok(data)
  }

  /** When the request carries both the category and the period, the corrected check
      and validate as written agree. */
  lemma ValidateUpdateAgrees(existing: seq<Budget>, inst: Budget, data: BudgetData)
    requires data.category.Some? && data.period.Some?
    ensures ValidateUpdate(existing, inst, data) == Validate(existing, inst.user, data, Some(inst.id))
  {
    var after := Update(inst, data);
    assert data.(category := Some(after.category), period := Some(after.period)) == data;
  }

  /** An update that passed the corrected check keeps unique_together, whichever fields
      the request omits. */
  lemma ValidatedUpdateKeepsUnique(existing: seq<Budget>, k: nat, data: BudgetData)
    requires UniqueTogether(existing)
    requires k < |existing|
    requires forall i :: 0 <= i < |existing| && i != k ==> existing[i].id != existing[k].id
    requires ValidateUpdate(existing, existing[k], data).Ok?
    ensures UniqueTogether(existing[k := Update(existing[k], data)])
  {
    var nb := Update(existing[k], data);
    var bs := existing[k := nb];
    forall i, j | 0 <= i < j < |bs|
      ensures !SameKey(bs[i], bs[j])
    {
      if i == k {
        assert !(existing[j].id != existing[k].id && SameKey(existing[j], nb));
      } else if j == k {
        assert !(existing[i].id != existing[k].id && SameKey(existing[i], nb));
      }
    }
  }

  /** get_percentage: the percentage rounded half-even to one decimal place, in tenths. */
  function SerializedPercentage(b: Budget, ledger: seq<Transaction>, q: Query, now: DateTime): (r: Result<int>)
    ensures r.Ok? <==> SpentAmount(b, ledger, q, now).Ok?
    ensures r.Ok? ==> IsHalfEvenRounding(10.0 * PercentageUsed(b, ledger, q, now).value, r.value)
    ensures r.Ok? && b.amount > 0 && SpentAmount(b, ledger, q, now).value >= 0 ==> 0 <= r.value <= 1000
  {
    match PercentageUsed(b, ledger, q, now)
    case Ok(p) =>
      assert p >= 0.0 ==> 0 <= RoundHalfEven(10.0 * p) <= 1000 by {
        if p >= 0.0 { RoundingBounds(10.0 * p, 0, 1000); }
      }
      Ok(RoundHalfEven(10.0 * p))
    case Err(e) => Err(e)
  }

  /** The displayed percentage is rounded while the status is not: 79.99% shows as 80.0
      with status caution. */
  lemma DisplayedEightyCanBeCaution()
    ensures RoundHalfEven(10.0 * Percentage(10000, 7999)) == 800
    ensures StatusOf(Percentage(10000, 7999)) == Caution
  {
    assert Percentage(10000, 7999) == 79.99;
    RoundingIsUnique(799.9, RoundHalfEven(799.9), 800);
  }

  /** get_daily_budget_remaining: `float(d) if d else None`, so a zero daily budget is
      shown as None, exactly like a budget that is not monthly. */
  function SerializedDaily(b: Budget, ledger: seq<Transaction>, q: Query, now: DateTime): (r: Result<Option<real>>)
    ensures r.Ok? <==> DailyBudgetRemaining(b, ledger, q, now).Ok?
    ensures r.Ok? ==>
      var d := DailyBudgetRemaining(b, ledger, q, now).value;
      && (r.value.None? <==> d.None? || d.value == 0.0)
      && (r.value.Some? ==> r.value == d)
  {
    match DailyBudgetRemaining(b, ledger, q, now)
    case Ok(d) => Ok(if d.Some? && d.value != 0.0 then d else None)
    case Err(e) => Err(e)
  }
}
