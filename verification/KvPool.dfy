/** How much context a llama.cpp launch gives a request, and whether its slots together promise more
    than the KV pool holds (internal/config/kvunified.go, context_size.go, pool_tokens.go). */
module KvPool {
  import opened Numbers

  /** The recognised flags of a command line, by name. */
  type Flags = map<string, string>

  const PRESENT := "true"
  const TRUTHY: set<string> := {"on", "enabled", PRESENT, "1"}
  const AUTO_SLOTS := 4
  const ALIGN := 256

  function GetInt(flags: Flags, key: string): Option<int> {
    if key in flags then ParseInt(flags[key]) else None
  }

  /** A missing, unreadable or negative -np leaves the choice to the server. */
  predicate SlotsAuto(flags: Flags) {
    "parallel" !in flags || ParseInt(flags["parallel"]) == None || ParseInt(flags["parallel"]).value < 0
  }

  predicate Unified(flags: Flags) {
    if SlotsAuto(flags) then true
    else if "no_kv_unified" in flags then false
    else "kv_unified" in flags && flags["kv_unified"] in TRUTHY
  }

  function PerSlot(flags: Flags): (r: Option<int>)
    ensures r.Some? ==> r.value > 0
  {
    var n := GetInt(flags, "kv_unified_per_slot");
    if n == None || n.value <= 0 then None else n
  }

  function Slots(flags: Flags): nat {
    if SlotsAuto(flags) then AUTO_SLOTS else ParseInt(flags["parallel"]).value
  }

  /** The least multiple of 256 that is at least n. */
  function PadUpTo256(n: nat): (r: nat)
    ensures n <= r < n + ALIGN && r % ALIGN == 0
    ensures forall m: nat :: n <= m && m % ALIGN == 0 ==> r <= m
  {
    (n + ALIGN - 1) / ALIGN * ALIGN
  }

  /** The context of one request: a number, not told by the flags, or a division by no slots. */
  datatype Window = Known(tokens: nat) | Unknown | DividesByZero

  /** One slot's part of a split pool. */
  function Share(pool: nat, slots: nat): Window {
    if slots == 0 then DividesByZero else Known(PadUpTo256(pool / slots))
  }

  function ContextWindow(flags: Flags): Window {
    var perSlot, total := PerSlot(flags), GetInt(flags, "ctx_size");
    if total == None then
      if perSlot.Some? then Known(perSlot.value) else Unknown
    else if total.value <= 0 then Unknown
    else
      var pool := PadUpTo256(total.value);
      if !Unified(flags) then Share(pool, Slots(flags))
      else if perSlot.Some? && perSlot.value < pool then Known(perSlot.value)
      else Known(pool)
  }

  function PoolTokens(flags: Flags): Option<nat> {
    var total, perSlot := GetInt(flags, "ctx_size"), PerSlot(flags);
    if total.Some? && total.value > 0 then Some(PadUpTo256(total.value))
    else if perSlot.Some? then Some(PadUpTo256(perSlot.value * Slots(flags)))
    else None
  }

  predicate Oversubscribed(flags: Flags) {
    if !Unified(flags) || Slots(flags) <= 1 then false
    else if PerSlot(flags) == None || PoolTokens(flags) == None then true
    else PerSlot(flags).value * Slots(flags) > PoolTokens(flags).value
  }

  // ---- What the numbers mean together ----

  predicate Derived(flags: Flags) {
    ContextWindow(flags).Known? && PoolTokens(flags).Some?
  }

  /** The pool is called oversubscribed exactly when it is shared and its slots' windows add up to more
      than it holds. */
  lemma OversubscribedExactly(flags: Flags)
    requires Derived(flags)
    ensures Oversubscribed(flags) <==>
            Unified(flags) && Slots(flags) * ContextWindow(flags).tokens > PoolTokens(flags).value
  {
    hide SlotsAuto, Unified, Slots, PerSlot, GetInt, PadUpTo256;
    if Unified(flags) {
      var slots, pool := Slots(flags), PoolTokens(flags).value;
      var perSlot := if PerSlot(flags) == None then pool else PerSlot(flags).value;
      CeilingDecides(slots, perSlot, pool);
      if GetInt(flags, "ctx_size") == None {
        Commutes(perSlot, slots);
      }
    }
  }

  /** Shares capped by the pool outgrow it exactly when there are two of them and their caps do. */
  lemma CeilingDecides(slots: nat, perSlot: nat, pool: nat)
    ensures var window := if perSlot < pool then perSlot else pool;
            (slots * window > pool <==> slots >= 2 && pool > 0 && perSlot * slots > pool)
  {
    Commutes(perSlot, slots);
    if slots >= 2 {
      TimesAtLeast(2, slots, pool);
      if perSlot >= pool {
        TimesAtLeast(pool, perSlot, slots);
        Commutes(pool, slots);
      }
    }
  }

  lemma TimesAtLeast(a: nat, b: nat, c: nat)
    requires a <= b
    ensures a * c <= b * c
  {
  }

  lemma Commutes(a: nat, b: nat)
    ensures a * b == b * a
  {
  }

  /** What the requests in flight take together. */
  function Sum(demands: seq<nat>): nat {
    if demands == [] then 0 else demands[0] + Sum(demands[1..])
  }

  /** What the server may admit: at most one request a slot, none over the window. */
  predicate Admissible(flags: Flags, demands: seq<nat>)
    requires Derived(flags)
  {
    |demands| <= Slots(flags) && forall i | 0 <= i < |demands| :: demands[i] <= ContextWindow(flags).tokens
  }

  lemma {:induction false} SumAtMost(demands: seq<nat>, most: nat)
    requires forall i | 0 <= i < |demands| :: demands[i] <= most
    ensures Sum(demands) <= |demands| * most
  {
    if demands != [] {
      SumAtMost(demands[1..], most);
      assert |demands| * most == (|demands| - 1) * most + most;
    }
  }

  lemma {:induction false} SumOfEqual(n: nat, each: nat)
    ensures Sum(seq(n, _ => each)) == n * each
  {
    if n > 0 {
      var demands := seq(n, _ => each);
      assert demands[1..] == seq(n - 1, _ => each);
      SumOfEqual(n - 1, each);
      assert n * each == (n - 1) * each + each;
    }
  }

  /** So a shared pool that is not called oversubscribed holds every load the server may admit, and one
      that is has an admissible load it cannot hold. */
  lemma OversubscribedMeansSomeLoadFails(flags: Flags)
    requires Derived(flags) && Unified(flags)
    ensures Oversubscribed(flags) <==>
            exists demands :: Admissible(flags, demands) && Sum(demands) > PoolTokens(flags).value
  {
    hide Oversubscribed, Unified, Slots, PoolTokens, ContextWindow;
    OversubscribedExactly(flags);
    var slots, window := Slots(flags), ContextWindow(flags).tokens;
    forall demands | Admissible(flags, demands)
      ensures Sum(demands) <= slots * window
    {
      SumAtMost(demands, window);
      TimesAtLeast(|demands|, slots, window);
    }
    var full := seq(slots, _ => window);
    SumOfEqual(slots, window);
    assert Admissible(flags, full);
  }

  /** A request never gets more than the pool. */
  lemma WindowFitsPool(flags: Flags)
    requires Derived(flags) && Slots(flags) > 0
    ensures ContextWindow(flags).tokens <= PoolTokens(flags).value
  {
    hide SlotsAuto, Unified, Slots, PerSlot, GetInt;
    var slots := Slots(flags);
    if PerSlot(flags).Some? {
      TimesAtLeast(1, slots, PerSlot(flags).value);
      Commutes(slots, PerSlot(flags).value);
    }
    if PoolTokens(flags).value > 0 && GetInt(flags, "ctx_size").Some? && GetInt(flags, "ctx_size").value > 0 {
      ShareOfPool(PoolTokens(flags).value, slots);
    }
  }

  /** Padding a pool's equal shares: between the pool less a token a slot and the pool plus 256 a slot. */
  lemma ShareOfPool(pool: nat, slots: nat)
    requires slots > 0 && pool % ALIGN == 0
    ensures PadUpTo256(pool / slots) <= pool
    ensures pool - slots < slots * PadUpTo256(pool / slots) < pool + ALIGN * slots
  {
    var share := pool / slots;
    var padded := PadUpTo256(share);
    assert pool == slots * share + pool % slots;
    assert slots * share <= slots * padded by {
      TimesAtLeast(share, padded, slots);
      Commutes(share, slots);
      Commutes(padded, slots);
    }
    assert slots * (padded - share) < slots * ALIGN by { StrictlyLess(padded - share, ALIGN, slots); }
    assert slots * (padded - share) == slots * padded - slots * share;
    assert share <= pool by { TimesAtLeast(1, slots, share); }
  }

  lemma StrictlyLess(a: int, b: int, c: nat)
    requires a < b && c > 0
    ensures c * a < c * b
  {
  }

  // ---- Split pools ----

  /** In a split pool the slots' windows never exceed the pool by 256 tokens a slot. They fall short of it
      by less than a token a slot exactly when -c sizes the pool, or when padding the product of the
      ceiling and the slot count adds less than a token a slot. */
  lemma SplitWindowsFillPool(flags: Flags)
    requires Derived(flags) && !Unified(flags) && Slots(flags) > 0
    ensures Slots(flags) * ContextWindow(flags).tokens < PoolTokens(flags).value + ALIGN * Slots(flags)
    ensures PoolTokens(flags).value - Slots(flags) < Slots(flags) * ContextWindow(flags).tokens <==>
            GetInt(flags, "ctx_size").Some? ||
            (ALIGN - PerSlot(flags).value * Slots(flags) % ALIGN) % ALIGN < Slots(flags)
  {
    hide SlotsAuto, Unified, Slots, GetInt;
    var slots := Slots(flags);
    if GetInt(flags, "ctx_size").Some? {
      hide PadUpTo256;
      ShareOfPool(PoolTokens(flags).value, slots);
    } else {
      hide PerSlot;
      var promised := PerSlot(flags).value * slots;
      Commutes(PerSlot(flags).value, slots);
      PaddingAdds(promised);
      assert ALIGN * slots >= ALIGN;
    }
  }

  lemma PaddingAdds(n: nat)
    ensures PadUpTo256(n) - n == (ALIGN - n % ALIGN) % ALIGN
  {
  }

  /** A split pool of 256 tokens whose two slots may use one each: the lower bound fails. */
  lemma SplitCanLeavePoolUnused()
    ensures var flags := map["parallel" := "2", "kv_unified_per_slot" := "1"];
            Derived(flags) && !Unified(flags) && Slots(flags) == 2 &&
            ContextWindow(flags) == Known(1) && PoolTokens(flags) == Some(256)
  {
    ParsePrinted(1);
    ParsePrinted(2);
    assert Itoa(1) == "1" && Itoa(2) == "2";
  }

  /** The pool is shared exactly when the slots are left to the server, -np saying nothing or no number from zero up, or
      when -kvu is on, in one of its four spellings, and not negated. */
  lemma SharedExactly(flags: Flags)
    ensures Unified(flags) <==>
            || !(exists n: nat :: "parallel" in flags && ParseInt(flags["parallel"]) == Some(n))
            || ("no_kv_unified" !in flags && "kv_unified" in flags
                && (flags["kv_unified"] == "on" || flags["kv_unified"] == "enabled" || flags["kv_unified"] == "true"
                    || flags["kv_unified"] == "1"))
  {
    hide ParseInt;
    if "parallel" in flags && ParseInt(flags["parallel"]).Some? && ParseInt(flags["parallel"]).value >= 0 {
      var n: nat := ParseInt(flags["parallel"]).value;
      assert ParseInt(flags["parallel"]) == Some(n);
    }
  }

  /** The ceiling a slot is p tokens; zero stands for none that can be used. */
  predicate Ceiling(flags: Flags, p: nat) {
    var n := GetInt(flags, "kv_unified_per_slot");
    if p == 0 then n == None || n.value <= 0 else n == Some(p)
  }

  /** What -np n and -c c give, with a ceiling of p a slot if that is not zero: n slots, a pool of c tokens padded, and
      for one request all of a shared pool up to the ceiling, or a padded n-th of a split one. */
  lemma FlagsGive(flags: Flags, n: nat, c: nat, p: nat)
    requires n > 0 && GetInt(flags, "parallel") == Some(n) && c > 0 && GetInt(flags, "ctx_size") == Some(c)
    requires Ceiling(flags, p)
    ensures var pool := PadUpTo256(c);
            && Slots(flags) == n && PoolTokens(flags) == Some(pool)
            && (Unified(flags) ==> ContextWindow(flags) == Known(if 0 < p < pool then p else pool))
            && (!Unified(flags) ==> ContextWindow(flags) == Share(pool, n))
  {
    hide ParseInt, PadUpTo256, Unified;
  }

  /** Without -c, or with none above zero, a ceiling times the slots and padded is the pool, and the window too is known
      only without -c, as the ceiling; without one nothing is known. */
  lemma CeilingGives(flags: Flags, p: nat)
    requires (GetInt(flags, "ctx_size") == None || GetInt(flags, "ctx_size").value <= 0) && Ceiling(flags, p)
    ensures ContextWindow(flags) == if p > 0 && GetInt(flags, "ctx_size") == None then Known(p) else Unknown
    ensures PoolTokens(flags) == if p > 0 then Some(PadUpTo256(p * Slots(flags))) else None
  {
    hide ParseInt, GetInt, PadUpTo256, Unified, Slots;
  }

  /** A shared pool of two or more slots is oversubscribed without a ceiling, whatever the pool; and with one and a pool
      of c tokens exactly if the slots' ceilings together pass that. It never is when the ceiling sizes the pool, when
      the pool is split, or with a single slot. */
  lemma OversubscribedOnFlags(flags: Flags, c: int, p: nat)
    requires Ceiling(flags, p) && GetInt(flags, "ctx_size") == if c > 0 then Some(c) else None
    ensures Oversubscribed(flags) <==>
            Unified(flags) && Slots(flags) >= 2 && (p == 0 || (c > 0 && p * Slots(flags) > PadUpTo256(c)))
  {
    hide ParseInt, GetInt, PadUpTo256, Unified, Slots;
  }

  /** Four slots share the pool, whatever else is said, when their number is left to the server. */
  lemma AutoIsFour(flags: Flags)
    requires "parallel" !in flags || (exists n: nat :: flags["parallel"] == "-" + Itoa(n) && 0 < n <= MAX_INT64)
    ensures Unified(flags) && Slots(flags) == 4
  {
    if "parallel" in flags {
      var n: nat :| flags["parallel"] == "-" + Itoa(n) && 0 < n <= MAX_INT64;
      ItoaSpells(n);
      var s := "-" + Itoa(n);
      assert s[0] == '-' && s[1..] == Itoa(n);
      hide Itoa, Value;
      assert ParseInt(s) == Some(0 - n);
    }
  }

  /** The division by no slots, reached with two flags. */
  lemma ZeroSlotsExample()
    ensures ContextWindow(map["parallel" := "0", "ctx_size" := "256"]) == DividesByZero
  {
    var flags := map["parallel" := "0", "ctx_size" := "256"];
    assert GetInt(flags, "parallel") == Some(0) && GetInt(flags, "ctx_size") == Some(256) by {
      ParsePrinted(0);
      ParsePrinted(256);
      assert Itoa(0) == "0";
      assert Itoa(25) == "25" && Itoa(256) == "256";
    }
    hide GetInt, PadUpTo256;
  }

  /** Slot count zero is not taken for auto: it reaches the division exactly in a split pool sized by -c. */
  lemma ZeroSlotsDivides(flags: Flags)
    ensures ContextWindow(flags) == DividesByZero <==>
            GetInt(flags, "parallel") == Some(0) && !Unified(flags) &&
            GetInt(flags, "ctx_size").Some? && GetInt(flags, "ctx_size").value > 0
  {
    hide PadUpTo256, ParseInt;
  }
}
