/** core/ledger/ledger.py: cost rows and each plan's running total, in micro-dollars. */
module Ledger {
  import opened Wrappers
  import opened Clock
  import opened Pricing
  import opened Tally

  datatype Kind = Llm | Embedding

  /** A `cost_entries` row. The column `occurred_at` holds Stamp(at). */
  datatype Entry = Entry(plan: Option<string>, kind: Kind, model: string, usd: nat, at: Instant)

  datatype Books = Books(entries: seq<Entry>, plans: map<string, nat>)

  /** `UPDATE plans ... WHERE id = ?`, skipped for a missing or empty plan id. */
  function Charged(plans: map<string, nat>, plan: Option<string>, usd: nat): map<string, nat> {
    if plan.Some? && plan.value != "" && plan.value in plans then plans[plan.value := plans[plan.value] + usd]
    else plans
  }

  datatype Event =
    | Create(id: string)
    | CallLlm(plan: Option<string>, model: string, usage: Usage, at: Instant)
    | Embed(plan: Option<string>, model: string, usd: nat, at: Instant)

  /** Plan ids are new when a plan is created. */
  function Step(b: Books, e: Event): Books {
    match e
    case Create(id) =>
      if id == "" || id in b.plans || (exists i :: 0 <= i < |b.entries| && b.entries[i].plan == Some(id)) then b
      else b.(plans := b.plans[id := 0])
    case CallLlm(plan, model, usage, at) =>
      var usd := PriceUsage(model, usage);
      Books(b.entries + [Entry(plan, Llm, model, usd, at)], Charged(b.plans, plan, usd))
    case Embed(plan, model, usd, at) => b.(entries := b.entries + [Entry(plan, Embedding, model, usd, at)])
  }

  function Run(b: Books, es: seq<Event>): Books {
    if es == [] then b else Step(Run(b, es[..|es| - 1]), es[|es| - 1])
  }

  function CallsOf(id: string): Entry -> int { (e: Entry) => if e.plan == Some(id) && e.kind == Llm then e.usd else 0 }

  function EmbeddingsOf(id: string): Entry -> int {
    (e: Entry) => if e.plan == Some(id) && e.kind == Embedding then e.usd else 0
  }

  function EntriesOf(id: string): Entry -> int { (e: Entry) => if e.plan == Some(id) then e.usd else 0 }

  ghost predicate Balanced(b: Books) {
    "" !in b.plans && forall id :: id in b.plans ==> b.plans[id] == Sum(b.entries, CallsOf(id))
  }

  lemma {:induction false} SumZero(es: seq<Entry>, w: Entry -> int)
    requires forall i :: 0 <= i < |es| ==> w(es[i]) == 0
    ensures Sum(es, w) == 0
  {
    if es != [] { SumZero(es[..|es| - 1], w); }
  }

  lemma StepBalances(b: Books, e: Event)
    requires Balanced(b)
    ensures Balanced(Step(b, e))
  {
    hide PriceUsage;
    var c := Step(b, e);
    forall id | id in c.plans ensures c.plans[id] == Sum(c.entries, CallsOf(id)) {
      if e.Create? && id !in b.plans {
        SumZero(b.entries, CallsOf(id));
      } else if e.CallLlm? {
        SumAppend(b.entries, Entry(e.plan, Llm, e.model, PriceUsage(e.model, e.usage), e.at), CallsOf(id));
      } else if e.Embed? {
        SumAppend(b.entries, Entry(e.plan, Embedding, e.model, e.usd, e.at), CallsOf(id));
      }
    }
  }

  /** In every run each plan's `actual_usd` is the sum of its llm rows. */
  lemma {:induction false} PlanTotalIsSumOfCalls(es: seq<Event>)
    ensures Balanced(Run(Books([], map[]), es))
  {
    if es != [] {
      PlanTotalIsSumOfCalls(es[..|es| - 1]);
      StepBalances(Run(Books([], map[]), es[..|es| - 1]), es[|es| - 1]);
    }
  }

  /** What one more call does to the books: its row at the list price comes last, and exactly its own
      plan is charged that price. */
  lemma CallIsBooked(es: seq<Event>, plan: Option<string>, model: string, usage: Usage, at: Instant)
    ensures var b, c := Run(Books([], map[]), es), Run(Books([], map[]), es + [CallLlm(plan, model, usage, at)]);
      c.entries == b.entries + [Entry(plan, Llm, model, PriceUsage(model, usage), at)] &&
      c.plans.Keys == b.plans.Keys &&
      forall id :: id in b.plans ==>
        c.plans[id] == b.plans[id] + if plan == Some(id) then PriceUsage(model, usage) else 0
  {
    hide PriceUsage;
    PlanTotalIsSumOfCalls(es);
    assert (es + [CallLlm(plan, model, usage, at)])[..|es|] == es;
  }

  /** An embedding call adds its row and charges nobody; a new plan starts at zero. */
  lemma OthersAreBooked(es: seq<Event>, plan: Option<string>, model: string, usd: nat, at: Instant, id: string)
    ensures var b, c := Run(Books([], map[]), es), Run(Books([], map[]), es + [Embed(plan, model, usd, at)]);
      c.entries == b.entries + [Entry(plan, Embedding, model, usd, at)] && c.plans == b.plans
    ensures var b, c := Run(Books([], map[]), es), Run(Books([], map[]), es + [Create(id)]);
      id != "" && id !in b.plans && (forall i :: 0 <= i < |b.entries| ==> b.entries[i].plan != Some(id)) ==>
        c.entries == b.entries && c.plans == b.plans[id := 0]
  {
    assert (es + [Embed(plan, model, usd, at)])[..|es|] == es;
    assert (es + [Create(id)])[..|es|] == es;
  }

  lemma {:induction false} KindsAdd(es: seq<Entry>, id: string)
    ensures Sum(es, EntriesOf(id)) == Sum(es, CallsOf(id)) + Sum(es, EmbeddingsOf(id))
  {
    if es != [] { KindsAdd(es[..|es| - 1], id); }
  }

  /** It is the sum of all its rows exactly when its embedding rows cost nothing: those are not added. */
  lemma PlanTotalIsSumOfEntriesIff(es: seq<Event>, id: string)
    ensures var b := Run(Books([], map[]), es);
      id in b.plans ==> (b.plans[id] == Sum(b.entries, EntriesOf(id)) <==> Sum(b.entries, EmbeddingsOf(id)) == 0)
  {
    PlanTotalIsSumOfCalls(es);
    KindsAdd(Run(Books([], map[]), es).entries, id);
  }

  class Journal {
    var entries: seq<Entry>
    var plans: map<string, nat>

    function View(): Books reads this { Books(entries, plans) }

    constructor ()
      ensures View() == Books([], map[])
    {
      entries, plans := [], map[];
    }

    method RecordLlm(plan: Option<string>, model: string, usage: Usage, now: Instant) returns (usd: nat)
      modifies this
      ensures View() == Step(old(View()), CallLlm(plan, model, usage, now)) && usd == PriceUsage(model, usage)
      ensures entries == old(entries) + [Entry(plan, Llm, model, usd, now)]
      ensures plan.Some? && plan.value != "" && plan.value in old(plans) ==>
                plans == old(plans)[plan.value := old(plans)[plan.value] + usd]
      ensures plan.None? || plan.value == "" || plan.value !in old(plans) ==> plans == old(plans)
    {
      usd := PriceUsage(model, usage);
      entries := entries + [Entry(plan, Llm, model, usd, now)];
      if plan.Some? && plan.value != "" && plan.value in plans {
        plans := plans[plan.value := plans[plan.value] + usd];
      }
    }

    method RecordEmbedding(plan: Option<string>, model: string, usd: nat, now: Instant)
      modifies this
      ensures View() == Step(old(View()), Embed(plan, model, usd, now))
      ensures entries == old(entries) + [Entry(plan, Embedding, model, usd, now)] && plans == old(plans)
    {
      entries := entries + [Entry(plan, Embedding, model, usd, now)];
    }
  }
}
