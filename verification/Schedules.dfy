/** One flow definition shared by many users, each seeing and editing only its
    own schedule rules: a lens per user. */
module Schedules {
  import opened Wrappers

  /** When a rule fires, and its other fields. */
  datatype Body = Body(cron: string, tz: string, other: string)

  /** A rule as stored. `owner` is "" when the key is absent or falsy; an entry
      that is no object can have none. */
  datatype Rule = NotADict(raw: string) | Rule(owner: string, body: Body)

  /** The trigger's rules (None when the key is absent), the legacy `cron` that
      preceded them ("" for none), and its other fields. */
  datatype Trigger = Trigger(kind: string, cron: string, schedules: Option<seq<Rule>>, other: string)

  datatype Definition = Definition(other: string, trigger: Option<Trigger>)

  function Rules(d: Definition): seq<Rule> {
    if d.trigger.Some? && d.trigger.value.schedules.Some? then d.trigger.value.schedules.value else []
  }

  function Stamp(r: Rule, user: string): Rule {
    if r.NotADict? then r else r.(owner := user)
  }

  function Stamped(rules: seq<Rule>, user: string): (r: seq<Rule>)
    ensures |r| == |rules| && forall i :: 0 <= i < |r| ==> r[i] == Stamp(rules[i], user)
  {
    seq(|rules|, i requires 0 <= i < |rules| => Stamp(rules[i], user))
  }

  method StampScheduleOwner(rules: array<Rule>, user: string)
    modifies rules
    ensures rules[..] == Stamped(old(rules[..]), user)
  {
    for i := 0 to rules.Length
      invariant forall k :: 0 <= k < rules.Length ==>
                  rules[k] == if k < i then Stamp(old(rules[k]), user) else old(rules[k])
    {
      if rules[i].Rule? {
        rules[i] := rules[i].(owner := user);
      }
    }
  }

  predicate IsMine(r: Rule, user: string) {
    r.Rule? && r.owner == user
  }

  predicate IsForeign(r: Rule, user: string) {
    r.Rule? && r.owner != "" && r.owner != user
  }

  function Mine(rules: seq<Rule>, user: string): seq<Rule> {
    if rules == [] then []
    else
      var rest, last := Mine(rules[..|rules| - 1], user), rules[|rules| - 1];
      if IsMine(last, user) then rest + [last] else rest
  }

  function Foreign(rules: seq<Rule>, user: string): seq<Rule> {
    if rules == [] then []
    else
      var rest, last := Foreign(rules[..|rules| - 1], user), rules[|rules| - 1];
      if IsForeign(last, user) then rest + [last] else rest
  }

  /** What `user` reads. */
  function View(d: Definition, user: string): Definition {
    if d.trigger.None? then d
    else d.(trigger := Some(d.trigger.value.(schedules := Some(Mine(Rules(d), user)))))
  }

  function Merge(existing: Definition, incoming: Definition, user: string): Definition {
    var trigger := if incoming.trigger.Some? then incoming.trigger.value else Trigger("", "", None, "");
    incoming.(trigger := Some(trigger.(schedules := Some(Rules(incoming) + Foreign(Rules(existing), user)))))
  }

  function StampDefinition(d: Definition, user: string): Definition {
    if Rules(d) == [] then d
    else d.(trigger := Some(d.trigger.value.(schedules := Some(Stamped(Rules(d), user)))))
  }

  /** Stamp the incoming rules, then merge in everyone else's. */
  function Save(existing: Definition, incoming: Definition, user: string): Definition {
    Merge(existing, StampDefinition(incoming, user), user)
  }

  predicate AllDicts(rules: seq<Rule>) {
    forall i :: 0 <= i < |rules| ==> rules[i].Rule?
  }

  // ---------------------------------------------------------------- validation

  /** What the request schema does, besides the legacy promotion: it may refuse
      a definition for anything else in it, and it refuses a rule's body or
      brings it to its full form. */
  datatype Validator = Validator(accepts: Definition -> bool, body: Body -> Option<Body>)

  function ParseAll(v: Validator, rules: seq<Rule>): Option<seq<Rule>> {
    if rules == [] then Some([])
    else
      var rest, last := ParseAll(v, rules[..|rules| - 1]), rules[|rules| - 1];
      if rest.None? || last.NotADict? || v.body(last.body).None? then None
      else Some(rest.value + [last.(body := v.body(last.body).value)])
  }

  /** A trigger of type schedule with a legacy cron and no rules. */
  predicate Promotes(d: Definition) {
    d.trigger.Some? && d.trigger.value.kind == "schedule" && Rules(d) == [] && d.trigger.value.cron != ""
  }

  function Promoted(cron: string): Rule {
    Rule("", Body(cron, "UTC", ""))
  }

  /** The rules a request stands for: its own, or the one its legacy cron is
      promoted to. None when one of them is refused. */
  function Sent(v: Validator, d: Definition): Option<seq<Rule>> {
    ParseAll(v, if Promotes(d) then [Promoted(d.trigger.value.cron)] else Rules(d))
  }

  function Validate(v: Validator, d: Definition): Option<Definition> {
    if !v.accepts(d) || Sent(v, d).None? then None
    else if d.trigger.None? then Some(d)
    else Some(d.(trigger := Some(d.trigger.value.(schedules := Some(Sent(v, d).value)))))
  }

  /** The update request: validate, stamp, merge. A refused one stores nothing. */
  function Update(v: Validator, existing: Definition, incoming: Definition, user: string): Option<Definition> {
    match Validate(v, incoming)
    case None => None
    case Some(valid) => Some(Save(existing, valid, user))
  }

  /** Validation leaves these rules as they are. */
  predicate Settled(v: Validator, rules: seq<Rule>) {
    forall i :: 0 <= i < |rules| ==> rules[i].Rule? && v.body(rules[i].body) == Some(rules[i].body)
  }

  lemma {:induction false} ParseAllFacts(v: Validator, rules: seq<Rule>, user: string)
    requires ParseAll(v, rules).Some?
    ensures var parsed := ParseAll(v, rules).value;
            && |parsed| == |rules| && AllDicts(parsed)
            && (Stamped(parsed, user) == Stamped(rules, user) <==> Settled(v, rules))
  {
    if rules != [] {
      hide Settled, Stamped;
      var init, last := rules[..|rules| - 1], rules[|rules| - 1];
      ParseAllFacts(v, init, user);
      var parsed := ParseAll(v, init).value;
      var full := last.(body := v.body(last.body).value);
      StampedSnoc(parsed, full, user);
      StampedSnoc(init, last, user);
      SettledSnoc(v, init, last);
      assert rules == init + [last];
      SnocsAgree(Stamped(parsed, user), Stamp(full, user), Stamped(init, user), Stamp(last, user));
    }
  }

  lemma StampedSnoc(rules: seq<Rule>, last: Rule, user: string)
    ensures Stamped(rules + [last], user) == Stamped(rules, user) + [Stamp(last, user)]
  {
  }

  lemma SettledSnoc(v: Validator, rules: seq<Rule>, last: Rule)
    ensures Settled(v, rules + [last]) <==> Settled(v, rules) && last.Rule? && v.body(last.body) == Some(last.body)
  {
    assert forall i :: 0 <= i < |rules| ==> (rules + [last])[i] == rules[i];
    assert (rules + [last])[|rules|] == last;
  }

  lemma SnocsAgree<T>(a: seq<T>, x: T, b: seq<T>, y: T)
    requires |a| == |b|
    ensures a + [x] == b + [y] <==> a == b && x == y
  {
    assert (a + [x])[..|a|] == a && (b + [y])[..|b|] == b;
    assert (a + [x])[|a|] == x && (b + [y])[|b|] == y;
  }

  lemma ValidRules(v: Validator, d: Definition)
    requires Validate(v, d).Some?
    ensures Rules(Validate(v, d).value) == Sent(v, d).value
  {
  }

  // ---------------------------------------------------------------- filters

  lemma {:induction false} FiltersConcat(a: seq<Rule>, b: seq<Rule>, user: string)
    ensures Mine(a + b, user) == Mine(a, user) + Mine(b, user)
    ensures Foreign(a + b, user) == Foreign(a, user) + Foreign(b, user)
    decreases |b|
  {
    if b == [] {
      assert a + b == a;
    } else {
      var init := b[..|b| - 1];
      FiltersConcat(a, init, user);
      assert (a + b)[..|a + b| - 1] == a + init;
    }
  }

  /** What survives of stamped rules: to their owner all the objects, to anyone
      else nothing, and nothing of it is foreign to the owner. */
  lemma {:induction false} StampedFilters(rules: seq<Rule>, user: string, other: string)
    requires user != other
    ensures Mine(Stamped(rules, user), other) == []
    ensures Foreign(Stamped(rules, user), user) == []
    ensures |Mine(Stamped(rules, user), user)| <= |rules|
    ensures |Mine(Stamped(rules, user), user)| == |rules| <==> AllDicts(rules)
    ensures AllDicts(rules) ==> Mine(Stamped(rules, user), user) == Stamped(rules, user)
  {
    if rules != [] {
      var init := rules[..|rules| - 1];
      StampedFilters(init, user, other);
      assert Stamped(rules, user)[..|rules| - 1] == Stamped(init, user);
    }
  }

  /** Other users' views pass through the foreign rules untouched. */
  lemma {:induction false} ForeignFilters(rules: seq<Rule>, user: string, other: string)
    requires other != ""
    ensures Mine(Foreign(rules, user), user) == []
    ensures other != user ==> Mine(Foreign(rules, user), other) == Mine(rules, other)
    ensures Foreign(Foreign(rules, user), user) == Foreign(rules, user)
  {
    if rules != [] {
      var init, last := rules[..|rules| - 1], rules[|rules| - 1];
      ForeignFilters(init, user, other);
      FiltersConcat(Foreign(init, user), [last], user);
      FiltersConcat(Foreign(init, user), [last], other);
      assert [last][..0] == [];
    }
  }

  lemma {:induction false} MineStamped(rules: seq<Rule>, user: string)
    ensures Stamped(Mine(rules, user), user) == Mine(rules, user) && AllDicts(Mine(rules, user))
  {
    if rules != [] { MineStamped(rules[..|rules| - 1], user); }
  }

  lemma SavedRules(existing: Definition, incoming: Definition, user: string)
    ensures Rules(Save(existing, incoming, user)) == Stamped(Rules(incoming), user) + Foreign(Rules(existing), user)
  {
    if Rules(incoming) == [] { assert Stamped([], user) == []; }
  }

  lemma ReadBack(existing: Definition, incoming: Definition, user: string, other: string)
    requires user != "" && other != "" && other != user && AllDicts(Rules(incoming))
    ensures var saved := Rules(Save(existing, incoming, user));
            Mine(saved, user) == Stamped(Rules(incoming), user) && Mine(saved, other) == Mine(Rules(existing), other)
  {
    SavedRules(existing, incoming, user);
    var mine, foreign := Stamped(Rules(incoming), user), Foreign(Rules(existing), user);
    FiltersConcat(mine, foreign, user);
    FiltersConcat(mine, foreign, other);
    StampedFilters(Rules(incoming), user, other);
    ForeignFilters(Rules(existing), user, other);
  }

  // ---------------------------------------------------------------- the lens laws

  /** After an accepted update its user reads back the rules the request stands
      for, stamped: exactly those it sent if and only if validation changes none
      of them and no legacy cron stands beside an empty list. Every other user's
      view is what it was. */
  lemma PutGet(v: Validator, existing: Definition, incoming: Definition, user: string, other: string)
    requires user != "" && other != "" && other != user
    ensures var updated := Update(v, existing, incoming, user);
            updated.Some? ==>
              var saved := Rules(updated.value);
              && Sent(v, incoming).Some?
              && Mine(saved, user) == Stamped(Sent(v, incoming).value, user)
              && (Mine(saved, user) == Stamped(Rules(incoming), user) <==>
                    Settled(v, Rules(incoming)) && !Promotes(incoming))
              && Mine(saved, other) == Mine(Rules(existing), other)
  {
    hide ParseAll, Settled, Save;
    if Update(v, existing, incoming, user).Some? {
      ValidRules(v, incoming);
      ParseAllFacts(v, if Promotes(incoming) then [Promoted(incoming.trigger.value.cron)] else Rules(incoming), user);
      ReadBack(existing, Validate(v, incoming).value, user, other);
    }
  }

  /** The two filters read off what their names say, in stored order. */
  lemma {:induction false} FiltersSelect(rules: seq<Rule>, user: string, r: Rule)
    ensures r in Mine(rules, user) <==> r in rules && r.Rule? && r.owner == user
    ensures r in Foreign(rules, user) <==> r in rules && r.Rule? && r.owner != "" && r.owner != user
    ensures forall k :: 0 <= k <= |rules| ==> Mine(rules[..k], user) <= Mine(rules, user) && Foreign(rules[..k], user) <= Foreign(rules, user)
  {
    if rules != [] {
      var init, last := rules[..|rules| - 1], rules[|rules| - 1];
      FiltersSelect(init, user, r);
      assert rules == init + [last] && rules[..|rules|] == rules;
      forall k | 0 <= k <= |init| ensures rules[..k] == init[..k] {
      }
    }
  }

  /** An accepted update stores the request's rules, stamped, and after them the
      other users' as they were; and what a user reads is the definition with
      its own rules alone. */
  lemma UpdateStores(v: Validator, existing: Definition, incoming: Definition, user: string, anyone: string)
    ensures var updated := Update(v, existing, incoming, user);
            updated.Some? ==>
              && Sent(v, incoming).Some?
              && Rules(updated.value) == Stamped(Sent(v, incoming).value, user) + Foreign(Rules(existing), user)
              && View(updated.value, anyone) ==
                 updated.value.(trigger := Some(updated.value.trigger.value.(schedules := Some(Mine(Rules(updated.value), anyone)))))
  {
    hide ParseAll, Stamped, Foreign, Mine;
    if Update(v, existing, incoming, user).Some? {
      ValidRules(v, incoming);
      SavedRules(existing, Validate(v, incoming).value, user);
    }
  }

  /** Whatever is no rule is the request's: an update takes the definition's and
      the trigger's other fields from it, an absent trigger leaving them empty. */
  lemma OtherFieldsAreTheRequests(v: Validator, existing: Definition, incoming: Definition, user: string)
    ensures var updated := Update(v, existing, incoming, user);
            updated.Some? ==>
              && updated.value.other == incoming.other && updated.value.trigger.Some?
              && var t := updated.value.trigger.value;
              && t.kind == (if incoming.trigger.Some? then incoming.trigger.value.kind else "")
              && t.cron == (if incoming.trigger.Some? then incoming.trigger.value.cron else "")
              && t.other == (if incoming.trigger.Some? then incoming.trigger.value.other else "")
  {
    hide Sent, Stamped, Foreign;
  }

  /** A request is refused exactly when the schema does not accept it, or when a
      rule of it is no object or has a body the schema refuses; a legacy cron
      beside an empty list counts as its one rule. */
  lemma RefusedIff(v: Validator, existing: Definition, incoming: Definition, user: string)
    ensures var rules := Rules(incoming);
            var legacy := incoming.trigger.Some? && incoming.trigger.value.kind == "schedule" && incoming.trigger.value.cron != "";
            Update(v, existing, incoming, user).None? <==>
              || !v.accepts(incoming)
              || (exists i :: 0 <= i < |rules| && (rules[i].NotADict? || v.body(rules[i].body).None?))
              || (rules == [] && legacy && v.body(Body(incoming.trigger.value.cron, "UTC", "")).None?)
  {
    hide Save, ParseAll;
    if Promotes(incoming) {
      var rule := Promoted(incoming.trigger.value.cron);
      ParseNone(v, [rule]);
      assert [rule][0] == rule;
    } else {
      ParseNone(v, Rules(incoming));
    }
  }

  lemma {:induction false} ParseNone(v: Validator, rules: seq<Rule>)
    ensures ParseAll(v, rules).None? <==>
            exists i :: 0 <= i < |rules| && (rules[i].NotADict? || v.body(rules[i].body).None?)
  {
    if rules != [] { ParseNone(v, rules[..|rules| - 1]); }
  }

  /** Updating twice is updating the second time. */
  lemma PutPut(v: Validator, existing: Definition, first: Definition, second: Definition, user: string)
    requires user != ""
    ensures Update(v, existing, first, user).Some? ==>
              Update(v, Update(v, existing, first, user).value, second, user) == Update(v, existing, second, user)
  {
    hide Validate;
    if Validate(v, first).Some? && Validate(v, second).Some? {
      SaveTwice(existing, Validate(v, first).value, Validate(v, second).value, user);
    }
  }

  lemma SaveTwice(existing: Definition, first: Definition, second: Definition, user: string)
    requires user != ""
    ensures Save(Save(existing, first, user), second, user) == Save(existing, second, user)
  {
    SavedRules(existing, first, user);
    FiltersConcat(Stamped(Rules(first), user), Foreign(Rules(existing), user), user);
    StampedFilters(Rules(first), user, "");
    ForeignFilters(Rules(existing), user, user + "x");
    assert Foreign(Rules(Save(existing, first, user)), user) == Foreign(Rules(existing), user);
  }

  /** Saving one's own view back, when accepted, leaves everyone else's view as
      it was; one's own it leaves if and only if validation changes none of the
      rules in it and it is not a schedule trigger with a legacy cron and none of
      one's rules. */
  lemma GetPut(v: Validator, existing: Definition, user: string, anyone: string)
    requires user != "" && anyone != ""
    ensures var view := View(existing, user);
            var updated := Update(v, existing, view, user);
            updated.Some? ==>
              (Mine(Rules(updated.value), anyone) == Mine(Rules(existing), anyone) <==>
                 anyone != user || (Settled(v, Mine(Rules(existing), user)) && !Promotes(view)))
  {
    hide Update, Settled, Promotes;
    var view := View(existing, user);
    MineStamped(Rules(existing), user);
    assert Rules(view) == Mine(Rules(existing), user) by { ViewRules(existing, user); }
    PutGet(v, existing, view, user, if anyone == user then user + "x" else anyone);
  }

  lemma ViewRules(d: Definition, user: string)
    ensures Rules(View(d, user)) == Mine(Rules(d), user)
  {
  }

  /** Validating what was validated changes nothing more, so it does not matter
      that a request is validated on arrival and again by the update. */
  lemma ValidationIsIdempotent(v: Validator, d: Definition)
    requires forall b :: v.body(b).Some? ==> v.body(v.body(b).value) == v.body(b)
    ensures Validate(v, d).Some? && v.accepts(Validate(v, d).value) ==>
              Validate(v, Validate(v, d).value) == Validate(v, d)
  {
    hide ParseAll;
    if Validate(v, d).Some? && d.trigger.Some? {
      var rules := if Promotes(d) then [Promoted(d.trigger.value.cron)] else Rules(d);
      ParseAllFacts(v, rules, "");
      ParseTwice(v, rules);
    }
  }

  lemma {:induction false} ParseTwice(v: Validator, rules: seq<Rule>)
    requires forall b :: v.body(b).Some? ==> v.body(v.body(b).value) == v.body(b)
    requires ParseAll(v, rules).Some?
    ensures ParseAll(v, ParseAll(v, rules).value) == ParseAll(v, rules)
  {
    if rules != [] { ParseTwice(v, rules[..|rules| - 1]); }
  }

  // ---------------------------------------------------------------- whole histories

  datatype Write = Write(user: string, incoming: Definition)

  function After(v: Validator, d: Definition, w: Write): Definition {
    match Update(v, d, w.incoming, w.user) case None => d case Some(updated) => updated
  }

  function History(v: Validator, start: Definition, writes: seq<Write>): Definition {
    if writes == [] then start
    else After(v, History(v, start, writes[..|writes| - 1]), writes[|writes| - 1])
  }

  /** What a user should see: the rules its latest accepted request stands for,
      stamped; what it saw at the start when it has none. */
  function Expected(v: Validator, start: Definition, writes: seq<Write>, user: string): seq<Rule> {
    if writes == [] then Mine(Rules(start), user)
    else
      var last := writes[|writes| - 1];
      if last.user == user && Validate(v, last.incoming).Some?
      then Stamped(Sent(v, last.incoming).value, user)
      else Expected(v, start, writes[..|writes| - 1], user)
  }

  /** What one write makes of anyone's view. */
  lemma OneWrite(v: Validator, d: Definition, w: Write, anyone: string)
    requires w.user != "" && anyone != ""
    ensures Mine(Rules(After(v, d, w)), anyone) ==
            if anyone == w.user && Validate(v, w.incoming).Some?
            then Stamped(Sent(v, w.incoming).value, anyone) else Mine(Rules(d), anyone)
  {
    hide Validate, Sent, Save;
    PutGet(v, d, w.incoming, w.user, if anyone == w.user then anyone + "x" else anyone);
  }

  /** Over any history of updates by any users, everyone's view is what its own
      latest accepted one stands for, whatever the others did in between. */
  lemma {:induction false} EveryoneSeesTheirOwnLastSave(v: Validator, start: Definition, writes: seq<Write>, user: string)
    requires user != "" && forall i :: 0 <= i < |writes| ==> writes[i].user != ""
    ensures Mine(Rules(History(v, start, writes)), user) == Expected(v, start, writes, user)
  {
    if writes != [] {
      hide After;
      EveryoneSeesTheirOwnLastSave(v, start, writes[..|writes| - 1], user);
      OneWrite(v, History(v, start, writes[..|writes| - 1]), writes[|writes| - 1], user);
    }
  }

  /** Updates by two users commute on every user's view. */
  lemma SavesCommute(v: Validator, start: Definition, a: Write, b: Write, anyone: string)
    requires a.user != "" && b.user != "" && a.user != b.user && anyone != ""
    ensures Mine(Rules(After(v, After(v, start, a), b)), anyone) == Mine(Rules(After(v, After(v, start, b), a)), anyone)
  {
    hide After, Validate, Sent, Mine, Rules, Stamped;
    OneWrite(v, start, a, anyone);
    OneWrite(v, start, b, anyone);
    OneWrite(v, After(v, start, a), b, anyone);
    OneWrite(v, After(v, start, b), a, anyone);
  }

  /** After an accepted update every stored rule is an object with an owner:
      ownerless rules and entries that are no objects are dropped for everyone. */
  lemma OwnerlessRulesAreDropped(v: Validator, existing: Definition, incoming: Definition, user: string)
    requires user != ""
    ensures var updated := Update(v, existing, incoming, user);
            updated.Some? ==>
              forall i :: 0 <= i < |Rules(updated.value)| ==> Rules(updated.value)[i].Rule? && Rules(updated.value)[i].owner != ""
  {
    hide ParseAll, Save;
    if Update(v, existing, incoming, user).Some? {
      var valid := Validate(v, incoming).value;
      ValidRules(v, incoming);
      ParseAllFacts(v, if Promotes(incoming) then [Promoted(incoming.trigger.value.cron)] else Rules(incoming), user);
      SavedRules(existing, valid, user);
      ForeignOwned(Rules(existing), user);
    }
  }

  lemma {:induction false} ForeignOwned(rules: seq<Rule>, user: string)
    ensures forall i :: 0 <= i < |Foreign(rules, user)| ==> Foreign(rules, user)[i].Rule? && Foreign(rules, user)[i].owner != ""
  {
    if rules != [] { ForeignOwned(rules[..|rules| - 1], user); }
  }

  // ---------------------------------------------------------------- the legacy cron

  /** A validator that accepts everything as it is. */
  function Lenient(): Validator {
    Validator(d => true, b => Some(b))
  }

  /** A saves a schedule in the legacy shape; B, who has no rules, reads the flow
      and sends back what it read. */
  function Legacy(): Definition {
    Definition("", Some(Trigger("schedule", "0 9 * * *", Some([]), "")))
  }

  /** Even a request of no rules at all is not read back as sent when a legacy
      cron stands beside them. */
  lemma LegacyCronComesBackAsARule()
    ensures Rules(Legacy()) == [] && AllDicts(Rules(Legacy()))
    ensures var saved := Update(Lenient(), Definition("", None), Legacy(), "A");
            saved.Some? && Mine(Rules(saved.value), "A") == [Rule("A", Body("0 9 * * *", "UTC", ""))]
  {
    hide Save, Mine, ParseAll;
    var v, rule := Lenient(), Promoted("0 9 * * *");
    OneRule(v, rule);
    assert Sent(v, Legacy()) == Some([rule]);
    PutGet(v, Definition("", None), Legacy(), "A", "B");
    assert Stamped([rule], "A") == [Stamp(rule, "A")];
  }

  lemma OneRule(v: Validator, r: Rule)
    requires r.Rule? && v.body(r.body).Some?
    ensures ParseAll(v, [r]) == Some([r.(body := v.body(r.body).value)])
  {
    assert [r][..|[r]| - 1] == [] && ParseAll(v, []) == Some([]);
    assert [] + [r.(body := v.body(r.body).value)] == [r.(body := v.body(r.body).value)];
  }

  /** And saving one's own view back can add a rule that fires in one's name. */
  lemma SavingBackAddsARule()
    ensures var v := Lenient();
            var stored := After(v, Definition("", None), Write("A", Legacy()));
            var after := After(v, stored, Write("B", View(stored, "B")));
            Mine(Rules(stored), "B") == [] && Mine(Rules(after), "B") == [Rule("B", Body("0 9 * * *", "UTC", ""))]
  {
    var v := Lenient();
    var rule := Promoted("0 9 * * *");
    OneRule(v, rule);
    var valid := Legacy().(trigger := Some(Legacy().trigger.value.(schedules := Some([rule]))));
    assert Validate(v, Legacy()) == Some(valid);
    var stored := After(v, Definition("", None), Write("A", Legacy()));
    assert stored.trigger.value.kind == "schedule" && stored.trigger.value.cron == "0 9 * * *";
    OneWrite(v, Definition("", None), Write("A", Legacy()), "B");
    var view := View(stored, "B");
    ViewRules(stored, "B");
    assert Promotes(view) && Sent(v, view) == Some([rule]) && Validate(v, view).Some?;
    OneWrite(v, stored, Write("B", view), "B");
  }
}
