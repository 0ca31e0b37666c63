/**
 Reconciling a channel's model list with the list its upstream offers: detect what to add and remove,
 stage it, apply or ignore any part of it. Model lists are ordered and free of duplicates once normalized;
 aliases (redirect sources and targets) are exempt from both directions.

 A regular expression in the ignore list is an uninterpreted predicate on pattern and name.
 */
module UpstreamModels {
  import opened Wrappers
  import opened Strings

  // ----- List algebra -----

  function Uniq(names: seq<string>): (r: seq<string>)
    ensures forall x :: x in r <==> x in names
  {
    if names == [] then []
    else
      var last := names[|names| - 1];
      var front := Uniq(names[..|names| - 1]);
      if last in front then front else front + [last]
  }

  function TrimmedNonEmpty(names: seq<string>): seq<string> {
    if names == [] then []
    else
      var name := TrimSpace(names[|names| - 1]);
      TrimmedNonEmpty(names[..|names| - 1]) + if name != "" then [name] else []
  }

  function Normalize(names: seq<string>): seq<string> {
    Uniq(TrimmedNonEmpty(names))
  }

  function Filter(names: seq<string>, keep: string -> bool): (r: seq<string>)
    ensures forall x :: x in r <==> x in names && keep(x)
  {
    if names == [] then []
    else
      var last := names[|names| - 1];
      Filter(names[..|names| - 1], keep) + if keep(last) then [last] else []
  }

  function Merge(base: seq<string>, appended: seq<string>): seq<string> {
    var b := Normalize(base);
    b + Filter(Normalize(appended), x => x !in b)
  }

  function Subtract(base: seq<string>, removed: seq<string>): seq<string> {
    var r := Normalize(removed);
    Filter(Normalize(base), x => x !in r)
  }

  function Intersect(base: seq<string>, allowed: seq<string>): seq<string> {
    var a := Normalize(allowed);
    Filter(Normalize(base), x => x in a)
  }

  predicate Distinct(names: seq<string>) {
    forall i, j :: 0 <= i < j < |names| ==> names[i] != names[j]
  }

  /** A list that normalization leaves alone. */
  predicate Normal(names: seq<string>) {
    && Distinct(names)
    && (forall i :: 0 <= i < |names| ==> names[i] != "" && Trimmed(names[i]))
  }

  lemma {:induction false} UniqDistinct(names: seq<string>)
    ensures Distinct(Uniq(names))
  {
    if names != [] {
      UniqDistinct(names[..|names| - 1]);
    }
  }

  lemma {:induction false} UniqFixed(names: seq<string>)
    requires Distinct(names)
    ensures Uniq(names) == names
  {
    if names != [] {
      UniqFixed(names[..|names| - 1]);
    }
  }

  lemma {:induction false} TrimmedNonEmptyClean(names: seq<string>)
    ensures forall x :: x in TrimmedNonEmpty(names) ==> x != "" && Trimmed(x)
  {
    if names != [] {
      TrimmedNonEmptyClean(names[..|names| - 1]);
      TrimSpaceIsIdempotent(names[|names| - 1]);
    }
  }

  lemma {:induction false} TrimmedNonEmptyFixed(names: seq<string>)
    requires forall i :: 0 <= i < |names| ==> names[i] != "" && Trimmed(names[i])
    ensures TrimmedNonEmpty(names) == names
  {
    if names != [] {
      TrimmedNonEmptyFixed(names[..|names| - 1]);
      assert TrimSpace(names[|names| - 1]) == names[|names| - 1];
    }
  }

  /** Normalization yields normal lists and does nothing to them. */
  lemma NormalizeIsIdempotent(names: seq<string>)
    ensures Normal(Normalize(names))
    ensures Normal(names) ==> Normalize(names) == names
  {
    UniqDistinct(TrimmedNonEmpty(names));
    TrimmedNonEmptyClean(names);
    var r := Normalize(names);
    forall i | 0 <= i < |r| ensures r[i] != "" && Trimmed(r[i]) {
      assert r[i] in r;
    }
    if Normal(names) {
      TrimmedNonEmptyFixed(names);
      UniqFixed(names);
    }
  }

  lemma {:induction false} FilterAgrees(names: seq<string>, p: string -> bool, q: string -> bool)
    requires forall x :: x in names ==> p(x) == q(x)
    ensures Filter(names, p) == Filter(names, q)
  {
    if names != [] {
      FilterAgrees(names[..|names| - 1], p, q);
    }
  }

  /** Two filters of one list agree exactly when their predicates agree on the list. */
  lemma FilterAgreesIff(names: seq<string>, p: string -> bool, q: string -> bool)
    ensures Filter(names, p) == Filter(names, q) <==> forall x :: x in names ==> p(x) == q(x)
  {
    if forall x :: x in names ==> p(x) == q(x) {
      FilterAgrees(names, p, q);
    }
  }

  lemma {:induction false} FilterFilter(names: seq<string>, p: string -> bool, q: string -> bool, both: string -> bool)
    requires forall x :: x in names ==> both(x) == (p(x) && q(x))
    ensures Filter(Filter(names, p), q) == Filter(names, both)
  {
    if names != [] {
      var front, last := names[..|names| - 1], names[|names| - 1];
      FilterFilter(front, p, q, both);
      FilterConcat(Filter(front, p), if p(last) then [last] else [], q);
    }
  }

  lemma {:induction false} FilterConcat(a: seq<string>, b: seq<string>, p: string -> bool)
    ensures Filter(a + b, p) == Filter(a, p) + Filter(b, p)
  {
    if b == [] {
      assert a + b == a;
    } else {
      assert (a + b)[..|a + b| - 1] == a + b[..|b| - 1];
      FilterConcat(a, b[..|b| - 1], p);
    }
  }

  lemma {:induction false} FilterNothing(names: seq<string>, p: string -> bool)
    requires forall x :: x in names ==> !p(x)
    ensures Filter(names, p) == []
  {
    if names != [] {
      FilterNothing(names[..|names| - 1], p);
    }
  }

  lemma {:induction false} FilterNormal(names: seq<string>, p: string -> bool)
    requires Normal(names)
    ensures Normal(Filter(names, p))
  {
    if names != [] {
      var front := names[..|names| - 1];
      FilterNormal(front, p);
      var r := Filter(front, p);
      forall i | 0 <= i < |r| ensures r[i] in front {
        assert r[i] in r;
      }
    }
  }

  lemma FilterNext(names: seq<string>, i: nat, p: string -> bool)
    requires i < |names|
    ensures Filter(names[..i + 1], p) == Filter(names[..i], p) + if p(names[i]) then [names[i]] else []
  {
    assert names[..i + 1][..i] == names[..i];
  }

  lemma UnseenName(names: seq<string>, i: nat)
    requires i < |names| && Normal(names)
    ensures names[i] !in names[..i]
    ensures forall x :: x in names[..i + 1] <==> x in names[..i] || x == names[i]
  {
    assert names[..i + 1] == names[..i] + [names[i]];
  }

  /** The loop of `mergeModelNames`: appends the unseen names one by one. */
  method MergeModelNames(base: seq<string>, appended: seq<string>) returns (merged: seq<string>)
    ensures merged == Merge(base, appended)
    ensures Normal(merged) && Normalize(base) <= merged
    ensures forall x :: x in merged <==> x in Normalize(base) || x in Normalize(appended)
  {
    MergeNormal(base, appended);
    merged := AppendUnseen(Normalize(base), Normalize(appended)) by {
      NormalizeIsIdempotent(appended);
    }
  }

  method AppendUnseen(base: seq<string>, extra: seq<string>) returns (merged: seq<string>)
    requires Normal(extra)
    ensures merged == base + Filter(extra, x => x !in base)
  {
    hide Normal;
    var unseen := x => x !in base;
    merged := base;
    var seen := set x | x in base;
    var i := 0;
    while i < |extra|
      invariant 0 <= i <= |extra|
      invariant merged == base + Filter(extra[..i], unseen)
      invariant forall x :: x in seen <==> x in base || x in extra[..i]
    {
      var name := extra[i];
      FilterNext(extra, i, unseen);
      UnseenName(extra, i);
      if name !in seen {
        seen := seen + {name};
        merged := merged + [name];
      }
      i := i + 1;
    }
    assert extra[..i] == extra;
  }

  lemma MergeNormal(base: seq<string>, appended: seq<string>)
    ensures Normal(Merge(base, appended))
  {
    NormalizeIsIdempotent(base);
    NormalizeIsIdempotent(appended);
    var b, extra := Normalize(base), Normalize(appended);
    var added := Filter(extra, x => x !in b);
    FilterNormal(extra, x => x !in b);
    forall i | 0 <= i < |added| ensures added[i] !in b {
      assert added[i] in added;
    }
  }

  // ----- Detection -----

  const REGEX_PREFIX := "regex:"

  /** What the upstream offers, the channel's alias mapping and the meaning of regular expressions. */
  datatype World = World(upstream: seq<string>, mapping: map<string, string>, matches: (string, string) -> bool)

  datatype Settings = Settings(ignored: seq<string>, detected: seq<string>, removed: seq<string>)

  datatype Channel = Channel(models: seq<string>, settings: Settings)

  predicate IsRule(entry: string) {
    HasPrefix(entry, REGEX_PREFIX)
  }

  predicate Ignores(world: World, entry: string, name: string) {
    if IsRule(entry) then world.matches(TrimSpace(entry[|REGEX_PREFIX|..]), name) else entry == name
  }

  predicate IsIgnored(world: World, ignored: seq<string>, name: string) {
    exists entry :: entry in Normalize(ignored) && Ignores(world, entry, name)
  }

  /** Not served locally and not the target of an alias. */
  predicate Uncovered(world: World, models: seq<string>, name: string) {
    name !in Normalize(models) && name !in world.mapping.Values
  }

  predicate ToAdd(world: World, models: seq<string>, ignored: seq<string>, name: string) {
    Uncovered(world, models, name) && !IsIgnored(world, ignored, name)
  }

  predicate ToRemove(world: World, name: string) {
    name !in world.mapping && name !in Normalize(world.upstream)
  }

  function PendingAdds(world: World, models: seq<string>, ignored: seq<string>): seq<string> {
    Normalize(Filter(Normalize(world.upstream), x => ToAdd(world, models, ignored, x)))
  }

  function PendingRemoves(world: World, models: seq<string>): seq<string> {
    Normalize(Filter(Normalize(models), x => ToRemove(world, x)))
  }

  lemma PendingUnfolded(world: World, models: seq<string>, ignored: seq<string>)
    ensures PendingAdds(world, models, ignored) == Filter(Normalize(world.upstream), x => ToAdd(world, models, ignored, x))
    ensures PendingRemoves(world, models) == Filter(Normalize(models), x => ToRemove(world, x))
    ensures Normal(PendingAdds(world, models, ignored)) && Normal(PendingRemoves(world, models))
  {
    NormalizeIsIdempotent(world.upstream);
    NormalizeIsIdempotent(models);
    FilterNormal(Normalize(world.upstream), x => ToAdd(world, models, ignored, x));
    FilterNormal(Normalize(models), x => ToRemove(world, x));
    NormalizeIsIdempotent(Filter(Normalize(world.upstream), x => ToAdd(world, models, ignored, x)));
    NormalizeIsIdempotent(Filter(Normalize(models), x => ToRemove(world, x)));
  }

  // ----- Applying a selection -----

  function ApplySelected(origin: seq<string>, add: seq<string>, remove: seq<string>): seq<string> {
    var a := Normalize(add);
    Subtract(Merge(origin, a), Subtract(Normalize(remove), a))
  }

  datatype Selection = Selection(add: seq<string>, ignore: seq<string>, remove: seq<string>)

  /** What the request may touch: only names that are pending, and adding wins over removing. */
  function Select(s: Settings, request: Selection): Selection {
    var adds, removes := Normalize(s.detected), Normalize(s.removed);
    var add := Intersect(request.add, adds);
    Selection(add, Intersect(request.ignore, adds), Subtract(Intersect(request.remove, removes), add))
  }

  function NextModels(models: seq<string>, sel: Selection): seq<string> {
    ApplySelected(Normalize(models), sel.add, sel.remove)
  }

  function NextIgnored(ignored: seq<string>, sel: Selection): seq<string> {
    var merged := Merge(ignored, sel.ignore);
    if |sel.add| > 0 then Subtract(merged, sel.add) else merged
  }

  function Applied(ch: Channel, request: Selection): Channel {
    var sel := Select(ch.settings, request);
    var next := NextModels(ch.models, sel);
    Channel(if next != Normalize(ch.models) then next else ch.models,
            Settings(NextIgnored(ch.settings.ignored, sel),
                     Subtract(Normalize(ch.settings.detected), sel.add + sel.ignore),
                     Subtract(Normalize(ch.settings.removed), sel.remove)))
  }

  /** The staged lists are what detection finds right now. */
  predicate FreshlyDetected(world: World, ch: Channel) {
    && ch.settings.detected == PendingAdds(world, ch.models, ch.settings.ignored)
    && ch.settings.removed == PendingRemoves(world, ch.models)
  }

  /** Selected names are normal lists of pending names, so additions are offered upstream and removals are not. */
  lemma SelectionIsPending(world: World, ch: Channel, request: Selection)
    requires FreshlyDetected(world, ch)
    ensures var sel := Select(ch.settings, request);
            && Normal(sel.add) && Normal(sel.ignore) && Normal(sel.remove)
            && (forall x :: x in sel.add || x in sel.ignore ==> x in ch.settings.detected)
            && (forall x :: x in sel.remove ==> x in ch.settings.removed)
            && (forall x :: x in sel.add || x in sel.ignore ==>
                              x in Normalize(world.upstream) && ToAdd(world, ch.models, ch.settings.ignored, x))
            && (forall x :: x in sel.remove ==> x !in Normalize(world.upstream) && x in Normalize(ch.models))
  {
    PendingUnfolded(world, ch.models, ch.settings.ignored);
    NormalizeIsIdempotent(ch.settings.detected);
    NormalizeIsIdempotent(ch.settings.removed);
    IntersectNormal(request.add, ch.settings.detected);
    IntersectNormal(request.ignore, ch.settings.detected);
    IntersectNormal(request.remove, ch.settings.removed);
    SubtractNormal(Intersect(request.remove, ch.settings.removed), Intersect(request.add, ch.settings.detected));
  }

  lemma IntersectNormal(base: seq<string>, allowed: seq<string>)
    ensures Normal(Intersect(base, allowed))
    ensures Normal(allowed) ==> forall x :: x in Intersect(base, allowed) <==> x in Normalize(base) && x in allowed
  {
    NormalizeIsIdempotent(base);
    NormalizeIsIdempotent(allowed);
    var a := Normalize(allowed);
    FilterNormal(Normalize(base), x => x in a);
  }

  lemma SubtractNormal(base: seq<string>, removed: seq<string>)
    ensures Normal(Subtract(base, removed))
    ensures Normal(base) && Normal(removed) ==>
              && Subtract(base, removed) == Filter(base, x => x !in removed)
              && forall x :: x in Subtract(base, removed) <==> x in base && x !in removed
  {
    NormalizeIsIdempotent(base);
    NormalizeIsIdempotent(removed);
    var r := Normalize(removed);
    FilterNormal(Normalize(base), x => x !in r);
    if Normal(base) && Normal(removed) {
      FilterAgrees(base, x => x !in r, x => x !in removed);
    }
  }

  /** The next model list is the old one without the removals, followed by the new names in request order. */
  lemma NextModelsUnfolded(world: World, ch: Channel, request: Selection)
    requires FreshlyDetected(world, ch)
    ensures var sel := Select(ch.settings, request);
            && NextModels(ch.models, sel) == Filter(Normalize(ch.models), x => x !in sel.remove) + sel.add
            && Normal(NextModels(ch.models, sel))
  {
    var sel, origin := Select(ch.settings, request), Normalize(ch.models);
    SelectionIsPending(world, ch, request);
    NormalizeIsIdempotent(ch.models);
    NormalizeIsIdempotent(origin);
    NormalizeIsIdempotent(sel.add);
    NormalizeIsIdempotent(sel.remove);
    SubtractNormal(sel.remove, sel.add);
    var gone := Subtract(sel.remove, sel.add);
    var merged := Merge(origin, sel.add);
    FilterAgrees(sel.add, x => x !in origin, x => true);
    FilterAll(sel.add, x => true);
    assert merged == origin + sel.add;
    MergeNormal(origin, sel.add);
    SubtractNormal(merged, gone);
    FilterConcat(origin, sel.add, x => x !in gone);
    FilterAgrees(origin, x => x !in gone, x => x !in sel.remove);
    FilterAgrees(sel.add, x => x !in gone, x => true);
  }

  lemma {:induction false} FilterAll(names: seq<string>, p: string -> bool)
    requires forall x :: x in names ==> p(x)
    ensures Filter(names, p) == names
  {
    if names != [] {
      var front, last := names[..|names| - 1], names[|names| - 1];
      FilterAll(front, p);
      assert last in names;
      assert names == front + [last];
    }
  }

  // ----- Detection after a partial application -----

  lemma AppliedModels(world: World, ch: Channel, request: Selection)
    requires FreshlyDetected(world, ch)
    ensures Normalize(Applied(ch, request).models) == NextModels(ch.models, Select(ch.settings, request))
  {
    NextModelsUnfolded(world, ch, request);
    NormalizeIsIdempotent(NextModels(ch.models, Select(ch.settings, request)));
  }

  /** Removals: detecting again finds exactly the removals that are still staged, in the same order. */
  lemma RedetectedRemoves(world: World, ch: Channel, request: Selection)
    requires FreshlyDetected(world, ch)
    ensures PendingRemoves(world, Applied(ch, request).models) == Applied(ch, request).settings.removed
  {
    var sel, origin := Select(ch.settings, request), Normalize(ch.models);
    var toRemove := (x: string) => ToRemove(world, x);
    var kept := (x: string) => x !in sel.remove;
    var both := (x: string) => ToRemove(world, x) && x !in sel.remove;
    SelectionIsPending(world, ch, request);
    AppliedModels(world, ch, request);
    NextModelsUnfolded(world, ch, request);
    PendingUnfolded(world, ch.models, ch.settings.ignored);
    PendingUnfolded(world, Applied(ch, request).models, []);
    NormalizeIsIdempotent(ch.settings.removed);
    SubtractNormal(ch.settings.removed, sel.remove);

    FilterConcat(Filter(origin, kept), sel.add, toRemove);
    FilterNothing(sel.add, toRemove);
    FilterFilter(origin, kept, toRemove, both);
    FilterFilter(origin, toRemove, kept, both);
    FilterAgrees(Filter(origin, kept) + sel.add, x => ToRemove(world, x), toRemove);
    FilterAgrees(origin, x => ToRemove(world, x), toRemove);
    FilterAgrees(origin, x => x !in sel.remove, kept);
    FilterAgrees(ch.settings.removed, x => x !in sel.remove, kept);
  }

  /** On the names that are still open, the new ignore list ignores what the old one ignored and the names
      just ignored, and nothing else. */
  predicate IgnoreListExact(world: World, ch: Channel, request: Selection) {
    var sel := Select(ch.settings, request);
    forall x :: x in Normalize(world.upstream) && Uncovered(world, ch.models, x) && x !in sel.add ==>
      (IsIgnored(world, NextIgnored(ch.settings.ignored, sel), x)
       <==> IsIgnored(world, ch.settings.ignored, x) || x in sel.ignore)
  }

  lemma UncoveredAfter(world: World, ch: Channel, request: Selection, x: string)
    requires FreshlyDetected(world, ch) && x in Normalize(world.upstream)
    ensures Uncovered(world, Applied(ch, request).models, x)
            <==> Uncovered(world, ch.models, x) && x !in Select(ch.settings, request).add
  {
    SelectionIsPending(world, ch, request);
    AppliedModels(world, ch, request);
    NextModelsUnfolded(world, ch, request);
  }

  lemma RemainingAdds(world: World, ch: Channel, request: Selection)
    requires FreshlyDetected(world, ch)
    ensures var sel := Select(ch.settings, request);
            Applied(ch, request).settings.detected
            == Filter(Normalize(world.upstream),
                      x => ToAdd(world, ch.models, ch.settings.ignored, x) && x !in sel.add && x !in sel.ignore)
  {
    var sel, upstream := Select(ch.settings, request), Normalize(world.upstream);
    var wanted := (x: string) => ToAdd(world, ch.models, ch.settings.ignored, x);
    var left := (x: string) => x !in Normalize(sel.add + sel.ignore);
    var both := (x: string) => ToAdd(world, ch.models, ch.settings.ignored, x) && x !in sel.add && x !in sel.ignore;
    SelectionIsPending(world, ch, request);
    PendingUnfolded(world, ch.models, ch.settings.ignored);
    NormalizeIsIdempotent(ch.settings.detected);
    NormalizeMembers(sel.add + sel.ignore);
    var r := Normalize(sel.add + sel.ignore);
    FilterAgrees(ch.settings.detected, x => x !in r, left);
    FilterAgrees(upstream, x => ToAdd(world, ch.models, ch.settings.ignored, x), wanted);
    FilterFilter(upstream, wanted, left, both);
    FilterAgrees(upstream, both,
                 x => ToAdd(world, ch.models, ch.settings.ignored, x) && x !in sel.add && x !in sel.ignore);
  }

  lemma NormalizeMembers(names: seq<string>)
    requires forall x :: x in names ==> x != "" && Trimmed(x)
    ensures forall x :: x in Normalize(names) <==> x in names
  {
    forall i | 0 <= i < |names| ensures names[i] != "" && Trimmed(names[i]) {
      assert names[i] in names;
    }
    TrimmedNonEmptyFixed(names);
  }

  lemma RedetectedIffListExact(world: World, ch: Channel, request: Selection)
    requires FreshlyDetected(world, ch)
    ensures var after := Applied(ch, request);
            PendingAdds(world, after.models, after.settings.ignored) == after.settings.detected
            <==> IgnoreListExact(world, ch, request)
  {
    var after, sel, upstream := Applied(ch, request), Select(ch.settings, request), Normalize(world.upstream);
    PendingUnfolded(world, after.models, after.settings.ignored);
    RemainingAdds(world, ch, request);
    FilterAgreesIff(upstream, x => ToAdd(world, after.models, after.settings.ignored, x),
                    x => ToAdd(world, ch.models, ch.settings.ignored, x) && x !in sel.add && x !in sel.ignore);
    forall x | x in upstream
      ensures Uncovered(world, after.models, x) <==> Uncovered(world, ch.models, x) && x !in sel.add
    {
      UncoveredAfter(world, ch, request, x);
    }
  }

  // ----- When a selection is safe -----

  /** An upstream name that stays unserved whatever is selected. */
  predicate StaysOpen(world: World, ch: Channel, sel: Selection, name: string) {
    name in Normalize(world.upstream) && Uncovered(world, ch.models, name) && name !in sel.add
  }

  /** An ignore entry, old or just selected, whose text is not selected for adding. */
  predicate Stays(ch: Channel, sel: Selection, entry: string) {
    (entry in Normalize(ch.settings.ignored) || entry in sel.ignore) && entry !in sel.add
  }

  predicate StillIgnored(world: World, ch: Channel, sel: Selection, name: string) {
    exists entry :: entry in Normalize(ch.settings.ignored) + sel.ignore && Stays(ch, sel, entry) && Ignores(world, entry, name)
  }

  /** Every name to ignore that is spelled like a rule is matched by an entry that stays. */
  predicate RuleNamesCovered(world: World, ch: Channel, sel: Selection) {
    forall x :: x in sel.ignore && x !in sel.add && IsRule(x) ==> StillIgnored(world, ch, sel, x)
  }

  /** No name that thereby becomes a rule matches a further open name that was not ignored before. */
  predicate NewRulesHarmless(world: World, ch: Channel, sel: Selection) {
    forall e, x :: e in sel.ignore && e !in sel.add && IsRule(e) && x in Normalize(world.upstream)
                   && StaysOpen(world, ch, sel, x) && x !in sel.ignore && Ignores(world, e, x) ==>
                     IsIgnored(world, ch.settings.ignored, x)
  }

  /** No rule that is dropped because its text was added was the only entry ignoring an open name. */
  predicate DroppedRulesRedundant(world: World, ch: Channel, sel: Selection) {
    forall e, x :: e in Normalize(ch.settings.ignored) && e in sel.add && IsRule(e) && x in Normalize(world.upstream)
                   && StaysOpen(world, ch, sel, x) && Ignores(world, e, x) ==>
                     StillIgnored(world, ch, sel, x)
  }

  predicate SafeSelection(world: World, ch: Channel, sel: Selection) {
    && RuleNamesCovered(world, ch, sel)
    && NewRulesHarmless(world, ch, sel)
    && DroppedRulesRedundant(world, ch, sel)
  }

  lemma NextListIgnores(world: World, ch: Channel, sel: Selection, x: string)
    requires Normal(sel.add) && Normal(sel.ignore)
    ensures IsIgnored(world, NextIgnored(ch.settings.ignored, sel), x) <==> StillIgnored(world, ch, sel, x)
  {
    var next := Normalize(NextIgnored(ch.settings.ignored, sel));
    NextIgnoredMembers(ch.settings.ignored, sel);
    if StillIgnored(world, ch, sel, x) {
      var entry :| entry in Normalize(ch.settings.ignored) + sel.ignore && Stays(ch, sel, entry) && Ignores(world, entry, x);
      assert entry in next;
    }
    if IsIgnored(world, NextIgnored(ch.settings.ignored, sel), x) {
      var entry :| entry in next && Ignores(world, entry, x);
      assert entry in Normalize(ch.settings.ignored) + sel.ignore && Stays(ch, sel, entry);
    }
  }

  lemma SafeName(world: World, ch: Channel, sel: Selection, x: string)
    requires SafeSelection(world, ch, sel) && StaysOpen(world, ch, sel, x)
    ensures StillIgnored(world, ch, sel, x) <==> IsIgnored(world, ch.settings.ignored, x) || x in sel.ignore
  {
    if x in sel.ignore {
      if !IsRule(x) {
        assert x in Normalize(ch.settings.ignored) + sel.ignore && Stays(ch, sel, x) && Ignores(world, x, x);
      }
    } else if IsIgnored(world, ch.settings.ignored, x) {
      var entry :| entry in Normalize(ch.settings.ignored) && Ignores(world, entry, x);
      if entry !in sel.add {
        assert entry in Normalize(ch.settings.ignored) + sel.ignore && Stays(ch, sel, entry);
      }
    }
  }

  lemma ExactIffSafe(world: World, ch: Channel, request: Selection)
    requires FreshlyDetected(world, ch)
    ensures IgnoreListExact(world, ch, request) <==> SafeSelection(world, ch, Select(ch.settings, request))
  {
    var sel := Select(ch.settings, request);
    SelectionIsPending(world, ch, request);
    forall x | StaysOpen(world, ch, sel, x)
      ensures IsIgnored(world, NextIgnored(ch.settings.ignored, sel), x) <==> StillIgnored(world, ch, sel, x)
    {
      NextListIgnores(world, ch, sel, x);
    }
    if SafeSelection(world, ch, sel) {
      forall x | StaysOpen(world, ch, sel, x)
        ensures StillIgnored(world, ch, sel, x) <==> IsIgnored(world, ch.settings.ignored, x) || x in sel.ignore
      {
        SafeName(world, ch, sel, x);
      }
    }
    if IgnoreListExact(world, ch, request) {
      ExactMeansSafe(world, ch, sel);
    }
  }

  lemma ExactMeansSafe(world: World, ch: Channel, sel: Selection)
    requires forall x :: x in sel.ignore ==> x in Normalize(world.upstream) && Uncovered(world, ch.models, x)
    requires forall x :: StaysOpen(world, ch, sel, x) ==>
                           (StillIgnored(world, ch, sel, x)
                            <==> IsIgnored(world, ch.settings.ignored, x) || x in sel.ignore)
    ensures SafeSelection(world, ch, sel)
  {
    forall x | x in sel.ignore && x !in sel.add && IsRule(x) ensures StillIgnored(world, ch, sel, x) {
      assert StaysOpen(world, ch, sel, x);
    }
    forall e, x | e in sel.ignore && e !in sel.add && IsRule(e) && x in Normalize(world.upstream)
                  && StaysOpen(world, ch, sel, x) && x !in sel.ignore && Ignores(world, e, x)
      ensures IsIgnored(world, ch.settings.ignored, x)
    {
      assert e in Normalize(ch.settings.ignored) + sel.ignore && Stays(ch, sel, e);
    }
  }

  /** Additions: detecting again finds exactly the additions that are still staged, in the same order, if and only
      if the selection is safe, which can be decided before it is applied. */
  lemma RedetectedAddsIff(world: World, ch: Channel, request: Selection)
    requires FreshlyDetected(world, ch)
    ensures var after := Applied(ch, request);
            PendingAdds(world, after.models, after.settings.ignored) == after.settings.detected
            <==> SafeSelection(world, ch, Select(ch.settings, request))
  {
    RedetectedIffListExact(world, ch, request);
    ExactIffSafe(world, ch, request);
  }

  /** Detecting again against the same upstream after a partial add, ignore and remove of freshly detected changes
      reproduces the stored remainder, order included, exactly for the safe selections. */
  lemma PartialApplyIsStableIff(world: World, ch: Channel, request: Selection)
    requires FreshlyDetected(world, ch)
    ensures FreshlyDetected(world, Applied(ch, request)) <==> SafeSelection(world, ch, Select(ch.settings, request))
  {
    RedetectedAddsIff(world, ch, request);
    RedetectedRemoves(world, ch, request);
  }

  /** A selection that ignores no name spelled like a rule and adds no name that is an ignore rule. */
  predicate PlainSelection(ch: Channel, sel: Selection) {
    && (forall x :: x in sel.ignore ==> !IsRule(x))
    && (forall x :: x in sel.add && IsRule(x) ==> x !in Normalize(ch.settings.ignored))
  }

  lemma PlainSelectionIsSafe(world: World, ch: Channel, sel: Selection)
    requires PlainSelection(ch, sel)
    ensures SafeSelection(world, ch, sel)
  {
  }

  /** So without such names every partial application is stable. */
  lemma PartialApplyIsStable(world: World, ch: Channel, request: Selection)
    requires FreshlyDetected(world, ch) && PlainSelection(ch, Select(ch.settings, request))
    ensures FreshlyDetected(world, Applied(ch, request))
  {
    PlainSelectionIsSafe(world, ch, Select(ch.settings, request));
    PartialApplyIsStableIff(world, ch, request);
  }

  lemma NextIgnoredMembers(ignored: seq<string>, sel: Selection)
    requires Normal(sel.add) && Normal(sel.ignore)
    ensures forall x :: x in Normalize(NextIgnored(ignored, sel))
                        <==> (x in Normalize(ignored) || x in sel.ignore) && x !in sel.add
  {
    var merged := Merge(ignored, sel.ignore);
    MergeNormal(ignored, sel.ignore);
    NormalizeIsIdempotent(sel.ignore);
    NormalizeIsIdempotent(merged);
    SubtractNormal(merged, sel.add);
    NormalizeIsIdempotent(Subtract(merged, sel.add));
  }

  function ApplyEverything(ch: Channel): Selection {
    Selection(ch.settings.detected, [], ch.settings.removed)
  }

  /** Applying everything empties the staged lists. It reaches a fixed point, with nothing pending on the next
      detection, if and only if no ignore rule whose text was itself detected was the only entry ignoring some
      open name. */
  lemma ApplyingEverythingSettlesIff(world: World, ch: Channel)
    requires FreshlyDetected(world, ch)
    ensures var after, sel := Applied(ch, ApplyEverything(ch)), Select(ch.settings, ApplyEverything(ch));
            && sel == Selection(ch.settings.detected, [], ch.settings.removed)
            && after.settings.detected == [] && after.settings.removed == []
            && PendingRemoves(world, after.models) == []
            && (PendingAdds(world, after.models, after.settings.ignored) == [] <==> DroppedRulesRedundant(world, ch, sel))
  {
    var request := ApplyEverything(ch);
    SelectEverything(world, ch);
    NothingRemains(world, ch);
    RedetectedAddsIff(world, ch, request);
    RedetectedRemoves(world, ch, request);
  }

  lemma SelectEverything(world: World, ch: Channel)
    requires FreshlyDetected(world, ch)
    ensures Select(ch.settings, ApplyEverything(ch)) == Selection(ch.settings.detected, [], ch.settings.removed)
  {
    var detected, removed := ch.settings.detected, ch.settings.removed;
    PendingUnfolded(world, ch.models, ch.settings.ignored);
    NormalizeIsIdempotent(detected);
    NormalizeIsIdempotent(removed);
    FilterAll(detected, x => x in detected);
    FilterAll(removed, x => x in removed);
    SubtractNormal(removed, detected);
    FilterAll(removed, x => x !in detected);
    assert Intersect([], detected) == [];
  }

  lemma NothingRemains(world: World, ch: Channel)
    requires FreshlyDetected(world, ch)
    ensures var after := Applied(ch, ApplyEverything(ch)); after.settings.detected == [] && after.settings.removed == []
  {
    var detected, removed := ch.settings.detected, ch.settings.removed;
    SelectEverything(world, ch);
    PendingUnfolded(world, ch.models, ch.settings.ignored);
    NormalizeIsIdempotent(detected);
    NormalizeIsIdempotent(removed);
    assert detected + [] == detected;
    FilterNothing(detected, x => x !in detected);
    FilterNothing(removed, x => x !in removed);
  }

  // ----- The scheduled check with automatic adoption -----

  /** What a check that fetched the upstream list leaves behind. */
  function Checked(world: World, ch: Channel, autoApply: bool): Channel {
    var adds := PendingAdds(world, ch.models, ch.settings.ignored);
    var removes := PendingRemoves(world, ch.models);
    if autoApply && |adds| > 0 then
      var origin := Normalize(ch.models);
      var merged := Merge(origin, adds);
      Channel(if |merged| > |origin| then merged else ch.models, Settings(ch.settings.ignored, [], removes))
    else
      Channel(ch.models, Settings(ch.settings.ignored, adds, removes))
  }

  /** A check leaves exactly what a second detection would find: the staged lists without automatic adoption,
      no additions and the same removals with it. */
  lemma CheckLeavesFreshState(world: World, ch: Channel, autoApply: bool)
    ensures FreshlyDetected(world, Checked(world, ch, autoApply))
  {
    var adds := PendingAdds(world, ch.models, ch.settings.ignored);
    if autoApply && |adds| > 0 {
      var after := Checked(world, ch, autoApply);
      var staged := Channel(ch.models, Settings(ch.settings.ignored, adds, PendingRemoves(world, ch.models)));
      AdoptedModels(world, ch);
      PendingUnfolded(world, ch.models, ch.settings.ignored);
      PendingUnfolded(world, after.models, ch.settings.ignored);
      var origin, toRemove := Normalize(ch.models), (x: string) => ToRemove(world, x);
      FilterNothing(Normalize(world.upstream), x => ToAdd(world, after.models, ch.settings.ignored, x));
      FilterConcat(origin, adds, toRemove);
      FilterNothing(adds, toRemove);
      FilterAgrees(origin + adds, x => ToRemove(world, x), toRemove);
      FilterAgrees(origin, x => ToRemove(world, x), toRemove);
    }
  }

  lemma AdoptedModels(world: World, ch: Channel)
    requires |PendingAdds(world, ch.models, ch.settings.ignored)| > 0
    ensures Normalize(Checked(world, ch, true).models)
            == Normalize(ch.models) + PendingAdds(world, ch.models, ch.settings.ignored)
  {
    var adds, origin := PendingAdds(world, ch.models, ch.settings.ignored), Normalize(ch.models);
    PendingUnfolded(world, ch.models, ch.settings.ignored);
    NormalizeIsIdempotent(ch.models);
    NormalizeIsIdempotent(origin);
    NormalizeIsIdempotent(adds);
    FilterAgrees(adds, x => x !in origin, x => true);
    FilterAll(adds, x => true);
    MergeNormal(origin, adds);
    NormalizeIsIdempotent(Merge(origin, adds));
  }

  // ----- What the lists mean -----

  /** Normalizing keeps exactly the trimmed non-empty names. */
  lemma {:induction false} TrimmedMeans(names: seq<string>, x: string)
    ensures x in TrimmedNonEmpty(names) <==> x != "" && exists i :: 0 <= i < |names| && TrimSpace(names[i]) == x
  {
    if names != [] {
      var front, last := names[..|names| - 1], names[|names| - 1];
      TrimmedMeans(front, x);
      if i :| 0 <= i < |front| && TrimSpace(front[i]) == x {
        assert TrimSpace(names[i]) == x;
      }
      if i :| 0 <= i < |names| && TrimSpace(names[i]) == x {
        assert i == |front| || TrimSpace(front[i]) == x;
      }
    }
  }

  lemma {:induction false} TrimmedOfLonger(a: seq<string>, b: seq<string>)
    ensures TrimmedNonEmpty(a + b) == TrimmedNonEmpty(a) + TrimmedNonEmpty(b)
  {
    if b == [] {
      assert a + b == a;
    } else {
      assert (a + b)[..|a + b| - 1] == a + b[..|b| - 1];
      TrimmedOfLonger(a, b[..|b| - 1]);
    }
  }

  lemma {:induction false} UniqOfLonger(a: seq<string>, b: seq<string>)
    ensures Uniq(a) <= Uniq(a + b)
  {
    if b == [] {
      assert a + b == a;
    } else {
      assert (a + b)[..|a + b| - 1] == a + b[..|b| - 1];
      UniqOfLonger(a, b[..|b| - 1]);
    }
  }

  /** A normal list holds each trimmed non-empty name once, where it first occurs: what comes later never moves it. */
  lemma NormalizeMeans(names: seq<string>, more: seq<string>, x: string)
    ensures x in Normalize(names) <==> x != "" && exists i :: 0 <= i < |names| && TrimSpace(names[i]) == x
    ensures Normalize(names) <= Normalize(names + more)
  {
    TrimmedMeans(names, x);
    TrimmedOfLonger(names, more);
    UniqOfLonger(TrimmedNonEmpty(names), TrimmedNonEmpty(more));
  }

  /** An ignore entry is a rule if it starts with `regex:`, and otherwise stands for its own text. */
  predicate EntryCovers(world: World, entry: string, x: string) {
    if |entry| >= 6 && entry[..6] == "regex:" then world.matches(TrimSpace(entry[6..]), x) else entry == x
  }

  /** What detection stages. A removal is a local model that the upstream does not offer and that is no alias; an
      addition is an upstream model that is neither local nor the target of an alias, and that no ignore entry covers. */
  lemma DetectionMeans(world: World, models: seq<string>, ignored: seq<string>, x: string)
    ensures x in PendingRemoves(world, models)
            <==> x in Normalize(models) && x !in world.mapping.Keys && x !in Normalize(world.upstream)
    ensures x in PendingAdds(world, models, ignored)
            <==> && x in Normalize(world.upstream) && x !in Normalize(models) && x !in world.mapping.Values
                 && forall entry :: entry in Normalize(ignored) ==> !EntryCovers(world, entry, x)
  {
    PendingUnfolded(world, models, ignored);
    forall entry | entry in Normalize(ignored) ensures EntryCovers(world, entry, x) <==> Ignores(world, entry, x) {
      assert IsRule(entry) <==> |entry| >= 6 && entry[..6] == "regex:";
    }
  }

  /** Additions keep the order of the upstream, removals that of the channel. */
  lemma DetectionKeepsOrder(world: World, models: seq<string>, ignored: seq<string>)
    ensures var adds, removes := PendingAdds(world, models, ignored), PendingRemoves(world, models);
            && adds == Filter(Normalize(world.upstream), x => x in adds)
            && removes == Filter(Normalize(models), x => x in removes)
  {
    var adds, removes := PendingAdds(world, models, ignored), PendingRemoves(world, models);
    PendingUnfolded(world, models, ignored);
    FilterAgrees(Normalize(world.upstream), x => ToAdd(world, models, ignored, x), x => x in adds);
    FilterAgrees(Normalize(models), x => ToRemove(world, x), x => x in removes);
  }

  /** A request selects exactly the names it asks for that are staged, in its own order; adding wins over removing. */
  lemma SelectionMeans(settings: Settings, request: Selection, x: string)
    requires Normal(settings.detected) && Normal(settings.removed)
    ensures var sel := Select(settings, request);
            && (x in sel.add <==> x in Normalize(request.add) && x in settings.detected)
            && (x in sel.ignore <==> x in Normalize(request.ignore) && x in settings.detected)
            && (x in sel.remove <==> x in Normalize(request.remove) && x in settings.removed && x !in sel.add)
            && sel.add == Filter(Normalize(request.add), y => y in sel.add)
            && sel.remove == Filter(Normalize(request.remove), y => y in sel.remove)
  {
    var sel, detected, removed := Select(settings, request), settings.detected, settings.removed;
    NormalizeIsIdempotent(detected);
    NormalizeIsIdempotent(removed);
    IntersectNormal(request.add, detected);
    IntersectNormal(request.ignore, detected);
    IntersectNormal(request.remove, removed);
    SubtractNormal(Intersect(request.remove, removed), sel.add);
    FilterAgrees(Normalize(request.add), y => y in detected, y => y in sel.add);
    FilterFilter(Normalize(request.remove), y => y in removed, y => y !in sel.add, y => y in sel.remove);
  }

  /** What an application leaves: models, ignore list and staged lists, name by name. */
  lemma ApplicationMeans(ch: Channel, request: Selection, x: string)
    requires Normal(ch.settings.detected) && Normal(ch.settings.removed)
    ensures var after, sel := Applied(ch, request), Select(ch.settings, request);
            && (x in Normalize(after.models) <==>
                  (x in Normalize(ch.models) && x !in sel.remove) || x in sel.add)
            && (x in Normalize(after.settings.ignored) <==>
                  (x in Normalize(ch.settings.ignored) || x in sel.ignore) && x !in sel.add)
            && (x in after.settings.detected <==> x in ch.settings.detected && x !in sel.add && x !in sel.ignore)
            && (x in after.settings.removed <==> x in ch.settings.removed && x !in sel.remove)
            && Normal(after.settings.detected) && Normal(after.settings.removed)
  {
    var sel := Select(ch.settings, request);
    SelectedNormal(ch.settings, request);
    SelectionMeans(ch.settings, request, x);
    NextIgnoredMembers(ch.settings.ignored, sel);
    AppliedModelsMean(ch, request, x);
    StagedMean(ch.settings, sel, x);
  }

  lemma SelectedNormal(settings: Settings, request: Selection)
    ensures var sel := Select(settings, request); Normal(sel.add) && Normal(sel.ignore) && Normal(sel.remove)
  {
    IntersectNormal(request.add, Normalize(settings.detected));
    IntersectNormal(request.ignore, Normalize(settings.detected));
    SubtractNormal(Intersect(request.remove, Normalize(settings.removed)), Select(settings, request).add);
  }

  lemma StagedMean(settings: Settings, sel: Selection, x: string)
    requires Normal(settings.detected) && Normal(settings.removed)
    requires Normal(sel.add) && Normal(sel.ignore) && Normal(sel.remove)
    ensures var left, rest := Subtract(Normalize(settings.detected), sel.add + sel.ignore),
                              Subtract(Normalize(settings.removed), sel.remove);
            && (x in left <==> x in settings.detected && x !in sel.add && x !in sel.ignore)
            && (x in rest <==> x in settings.removed && x !in sel.remove)
            && Normal(left) && Normal(rest)
  {
    NormalizeIsIdempotent(settings.detected);
    NormalizeIsIdempotent(settings.removed);
    NormalizeMembers(sel.add + sel.ignore);
    SubtractNormal(settings.detected, sel.add + sel.ignore);
    SubtractNormal(settings.removed, sel.remove);
  }

  lemma AppliedModelsMean(ch: Channel, request: Selection, x: string)
    ensures var sel := Select(ch.settings, request);
            x in Normalize(Applied(ch, request).models) <==> (x in Normalize(ch.models) && x !in sel.remove) || x in sel.add
  {
    var sel, origin := Select(ch.settings, request), Normalize(ch.models);
    SelectedNormal(ch.settings, request);
    NormalizeIsIdempotent(ch.models);
    NormalizeIsIdempotent(origin);
    NormalizeIsIdempotent(sel.add);
    NormalizeIsIdempotent(sel.remove);
    var gone, merged := Subtract(sel.remove, sel.add), Merge(origin, sel.add);
    SubtractNormal(sel.remove, sel.add);
    MergeNormal(origin, sel.add);
    SubtractNormal(merged, gone);
    NormalizeIsIdempotent(NextModels(ch.models, sel));
  }

  // ----- Aliases over whole runs -----

  /** A check against whatever the upstream offers at the time, or an application of whatever is requested. */
  datatype Event =
    | Check(upstream: seq<string>, autoApply: bool)
    | Apply(request: Selection)

  /** The channel after one event. The alias mapping and the rule matcher are those of `world` throughout. */
  function AfterEvent(world: World, ch: Channel, e: Event): Channel {
    match e
    case Check(upstream, autoApply) => Checked(world.(upstream := upstream), ch, autoApply)
    case Apply(request) => Applied(ch, request)
  }

  function AfterEvents(world: World, ch: Channel, events: seq<Event>): Channel {
    if events == [] then ch
    else AfterEvent(world, AfterEvents(world, ch, events[..|events| - 1]), events[|events| - 1])
  }

  /** Nothing staged concerns an alias. */
  predicate AliasesUnstaged(world: World, ch: Channel) {
    && Normal(ch.settings.detected) && Normal(ch.settings.removed)
    && (forall x :: x in ch.settings.removed ==> x !in world.mapping.Keys)
    && (forall x :: x in ch.settings.detected ==> x !in world.mapping.Values)
  }

  lemma CheckKeepsAliases(world: World, ch: Channel, autoApply: bool, x: string)
    ensures var after := Checked(world, ch, autoApply);
            && AliasesUnstaged(world, after)
            && (x in Normalize(ch.models) ==> x in Normalize(after.models))
            && (x in world.mapping.Values && x !in Normalize(ch.models) ==> x !in Normalize(after.models))
  {
    var adds := PendingAdds(world, ch.models, ch.settings.ignored);
    PendingUnfolded(world, ch.models, ch.settings.ignored);
    if autoApply && |adds| > 0 {
      AdoptedModels(world, ch);
    }
  }

  lemma ApplyKeepsAliases(world: World, ch: Channel, request: Selection, x: string)
    requires AliasesUnstaged(world, ch)
    ensures var after := Applied(ch, request);
            && AliasesUnstaged(world, after)
            && (x in world.mapping.Keys && x in Normalize(ch.models) ==> x in Normalize(after.models))
            && (x in world.mapping.Values && x !in Normalize(ch.models) ==> x !in Normalize(after.models))
  {
    forall y ensures (y in Applied(ch, request).settings.removed ==> y in ch.settings.removed)
                     && (y in Applied(ch, request).settings.detected ==> y in ch.settings.detected)
    {
      ApplicationMeans(ch, request, y);
    }
    ApplicationMeans(ch, request, x);
    SelectionMeans(ch.settings, request, x);
  }

  /** No run of checks, with or without automatic adoption and whatever the upstream offers, and of applications, whatever
      is requested, removes an alias that the channel serves or adopts a model that is the target of an alias. */
  lemma {:induction false} AliasesSurvive(world: World, ch: Channel, events: seq<Event>, x: string)
    requires AliasesUnstaged(world, ch)
    ensures var after := AfterEvents(world, ch, events);
            && AliasesUnstaged(world, after)
            && (x in world.mapping.Keys && x in Normalize(ch.models) ==> x in Normalize(after.models))
            && (x in world.mapping.Values && x !in Normalize(ch.models) ==> x !in Normalize(after.models))
  {
    if events != [] {
      var before, e := events[..|events| - 1], events[|events| - 1];
      AliasesSurvive(world, ch, before, x);
      var mid := AfterEvents(world, ch, before);
      match e
      case Check(upstream, autoApply) => CheckKeepsAliases(world.(upstream := upstream), mid, autoApply, x);
      case Apply(request) => ApplyKeepsAliases(world, mid, request, x);
    }
  }

  /** What a check does to the models: nothing without automatic adoption, and with it exactly the pending additions are
      appended. The ignore list is never touched. */
  lemma CheckMeans(world: World, ch: Channel, autoApply: bool)
    ensures var after, adds := Checked(world, ch, autoApply), PendingAdds(world, ch.models, ch.settings.ignored);
            && after.settings.ignored == ch.settings.ignored
            && (!autoApply || adds == [] ==> after.models == ch.models && after.settings.detected == adds)
            && (autoApply && adds != [] ==>
                  Normalize(after.models) == Normalize(ch.models) + adds && after.settings.detected == [])
            && after.settings.removed == PendingRemoves(world, ch.models)
  {
    if autoApply && |PendingAdds(world, ch.models, ch.settings.ignored)| > 0 {
      AdoptedModels(world, ch);
    }
  }

  // ----- Names spelled like a rule -----

  /** A channel without models whose upstream offers one name, after a detection. */
  function OneName(name: string): Channel {
    Channel([], Settings([], [name], []))
  }

  predicate OffersOnly(world: World, name: string) {
    world.upstream == [name] && world.mapping == map[] && name != "" && Trimmed(name)
  }

  lemma OneNamePending(world: World, name: string)
    requires OffersOnly(world, name)
    ensures Normalize(world.upstream) == [name] && ToAdd(world, [], [], name)
  {
    NormalizeIsIdempotent([name]);
    assert Normalize([]) == [];
  }

  lemma OneNameIsFresh(world: World, name: string)
    requires OffersOnly(world, name)
    ensures FreshlyDetected(world, OneName(name))
  {
    PendingUnfolded(world, [], []);
    OneNamePending(world, name);
    FilterAll([name], x => ToAdd(world, [], [], x));
    assert PendingRemoves(world, []) == [];
  }

  lemma SelectIgnoredName(name: string)
    requires name != "" && Trimmed(name)
    ensures Select(Settings([], [name], []), Selection([], [name], [])) == Selection([], [name], [])
  {
    NormalizeIsIdempotent([name]);
    FilterAll([name], x => x in [name]);
    FilterNothing([], x => x in [name]);
  }

  /** Ignoring a name that starts with the rule prefix stores a rule, not the name: in this smallest case it stays
      ignored exactly when the rule happens to match the name itself. */
  lemma IgnoringARuleName(world: World, name: string)
    requires OffersOnly(world, name)
    ensures FreshlyDetected(world, OneName(name))
    ensures FreshlyDetected(world, Applied(OneName(name), Selection([], [name], [])))
            <==> !IsRule(name) || world.matches(TrimSpace(name[|REGEX_PREFIX|..]), name)
  {
    OneNameIsFresh(world, name);
    SelectIgnoredName(name);
    PartialApplyIsStableIff(world, OneName(name), Selection([], [name], []));
    OneNameIsSafeIff(world, name);
  }

  lemma OneNameIsSafeIff(world: World, name: string)
    requires OffersOnly(world, name)
    ensures SafeSelection(world, OneName(name), Selection([], [name], [])) <==> Ignores(world, name, name)
  {
    var ch, sel := OneName(name), Selection([], [name], []);
    OneNamePending(world, name);
    assert Normalize([]) + sel.ignore == [name];
    assert StillIgnored(world, ch, sel, name) <==> Ignores(world, name, name) by {
      assert name in Normalize([]) + sel.ignore && Stays(ch, sel, name);
    }
    assert name in sel.ignore;
  }

  /** An upstream that offers a name spelled like a rule and one more name, nothing else being configured. */
  predicate OffersRuleAndName(world: World, rule: string, name: string) {
    && world.upstream == [rule, name] && world.mapping == map[] && rule != name
    && IsRule(rule) && Trimmed(rule) && name != "" && Trimmed(name)
  }

  /** A channel that serves nothing, with an ignore list and staged additions. */
  function Unserved(ignored: seq<string>, detected: seq<string>): Channel {
    Channel([], Settings(ignored, detected, []))
  }

  lemma EmptyIsNormal()
    ensures Normalize([]) == []
  {
  }

  lemma PairIsNormal(x: string, y: string)
    requires x != y && x != "" && Trimmed(x) && y != "" && Trimmed(y)
    ensures Normalize([x]) == [x] && Normalize([x, y]) == [x, y] && Normalize([]) == []
  {
    hide Normalize;
    hide Trimmed;
    EmptyIsNormal();
    NormalizeIsIdempotent([x]);
    NormalizeIsIdempotent([x, y]);
  }

  lemma FilterPair(x: string, y: string, p: string -> bool)
    ensures Filter([x, y], p) == (if p(x) then [x] else []) + if p(y) then [y] else []
  {
    assert [x, y][..1] == [x];
    assert Filter([x], p) == if p(x) then [x] else [] by {
      assert [x][..0] == [];
    }
  }

  lemma PairPending(world: World, rule: string, name: string, ignored: seq<string>)
    requires OffersRuleAndName(world, rule, name)
    ensures PendingRemoves(world, []) == []
    ensures PendingAdds(world, [], ignored)
            == (if IsIgnored(world, ignored, rule) then [] else [rule]) + if IsIgnored(world, ignored, name) then [] else [name]
  {
    PendingUnfolded(world, [], ignored);
    PairIsNormal(rule, name);
    FilterPair(rule, name, x => ToAdd(world, [], ignored, x));
  }

  lemma IgnoredByOne(world: World, rule: string, x: string)
    requires rule != "" && Trimmed(rule)
    ensures IsIgnored(world, [rule], x) <==> Ignores(world, rule, x)
    ensures !IsIgnored(world, [], x)
  {
    NormalizeIsIdempotent([rule]);
    assert Normalize([]) == [];
    assert rule in [rule];
  }

  /** Applying everything does not settle when the text of the only rule that ignores a name is itself offered: adding
      it drops the rule, and the next detection finds the name. */
  lemma AddingARuleUnignores(world: World, rule: string, name: string)
    requires OffersRuleAndName(world, rule, name)
    requires Ignores(world, rule, name) && !Ignores(world, rule, rule)
    ensures var ch := Unserved([rule], [rule]);
            var after := Applied(ch, ApplyEverything(ch));
            && FreshlyDetected(world, ch)
            && after.settings.detected == []
            && PendingAdds(world, after.models, after.settings.ignored) != []
  {
    var ch := Unserved([rule], [rule]);
    IgnoredByOne(world, rule, rule);
    IgnoredByOne(world, rule, name);
    PairPending(world, rule, name, [rule]);
    ApplyingEverythingSettlesIff(world, ch);
    RuleWasNeeded(world, rule, name);
  }

  lemma RuleWasNeeded(world: World, rule: string, name: string)
    requires OffersRuleAndName(world, rule, name) && Ignores(world, rule, name)
    ensures !DroppedRulesRedundant(world, Unserved([rule], [rule]), Selection([rule], [], []))
  {
    var ch, sel := Unserved([rule], [rule]), Selection([rule], [], []);
    PairIsNormal(rule, name);
    assert rule in Normalize(ch.settings.ignored) && rule in sel.add && name in Normalize(world.upstream);
    assert StaysOpen(world, ch, sel, name);
    assert forall entry :: entry in Normalize(ch.settings.ignored) + sel.ignore ==> !Stays(ch, sel, entry);
  }

  /** Ignoring a name that becomes a rule can take a further name with it: it stays staged although the next
      detection does not find it. */
  lemma IgnoringARuleIgnoresMore(world: World, rule: string, name: string)
    requires OffersRuleAndName(world, rule, name)
    requires Ignores(world, rule, name)
    ensures var ch := Unserved([], [rule, name]);
            FreshlyDetected(world, ch) && !FreshlyDetected(world, Applied(ch, Selection([], [rule], [])))
  {
    hide Applied;
    hide NewRulesHarmless;
    hide PendingAdds;
    hide Ignores;
    hide Select;
    var ch, request := Unserved([], [rule, name]), Selection([], [rule], []);
    PairIsFresh(world, rule, name);
    SelectFirst(rule, name);
    PartialApplyIsStableIff(world, ch, request);
    RuleHarms(world, rule, name);
  }

  lemma PairIsFresh(world: World, rule: string, name: string)
    requires OffersRuleAndName(world, rule, name)
    ensures FreshlyDetected(world, Unserved([], [rule, name]))
  {
    hide PendingAdds;
    hide PendingRemoves;
    IgnoredByOne(world, rule, rule);
    IgnoredByOne(world, rule, name);
    PairPending(world, rule, name, []);
    assert [rule] + [name] == [rule, name];
  }

  lemma SelectFirst(rule: string, name: string)
    requires rule != name && rule != "" && Trimmed(rule) && name != "" && Trimmed(name)
    ensures Select(Settings([], [rule, name], []), Selection([], [rule], [])) == Selection([], [rule], [])
  {
    PairIsNormal(rule, name);
    FilterAll([rule], x => x in [rule, name]);
  }

  lemma RuleHarms(world: World, rule: string, name: string)
    requires OffersRuleAndName(world, rule, name) && Ignores(world, rule, name)
    ensures !NewRulesHarmless(world, Unserved([], [rule, name]), Selection([], [rule], []))
  {
    var ch, sel := Unserved([], [rule, name]), Selection([], [rule], []);
    PairIsNormal(rule, name);
    IgnoredByOne(world, rule, name);
    assert rule in sel.ignore && name in Normalize(world.upstream) && StaysOpen(world, ch, sel, name);
  }

  /** `regex:^a$`, whose pattern matches `a` and not its own text. */
  lemma AnchoredRule(world: World)
    requires world.upstream == ["regex:^a$", "a"] && world.mapping == map[]
    requires world.matches("^a$", "a") && !world.matches("^a$", "regex:^a$")
    ensures OffersRuleAndName(world, "regex:^a$", "a")
    ensures Ignores(world, "regex:^a$", "a") && !Ignores(world, "regex:^a$", "regex:^a$")
  {
    assert "regex:^a$"[|REGEX_PREFIX|..] == "^a$";
    assert TrimLeft("^a$") == "^a$" && TrimRight("^a$") == "^a$";
  }

  /** `regex:.`, whose pattern matches every name. */
  lemma CatchAllRule(world: World)
    requires world.upstream == ["regex:.", "a"] && world.mapping == map[] && world.matches(".", "a")
    ensures OffersRuleAndName(world, "regex:.", "a") && Ignores(world, "regex:.", "a")
  {
    assert "regex:."[|REGEX_PREFIX|..] == ".";
    assert TrimLeft(".") == "." && TrimRight(".") == ".";
  }

  /** Both failures at real inputs. */
  lemma RuleNamesInPractice(anchored: World, catchAll: World)
    requires anchored == World(["regex:^a$", "a"], map[], (pattern, x) => pattern == "^a$" && x == "a")
    requires catchAll == World(["regex:.", "a"], map[], (pattern, x) => pattern == ".")
    ensures var ch := Unserved(["regex:^a$"], ["regex:^a$"]);
            var after := Applied(ch, ApplyEverything(ch));
            FreshlyDetected(anchored, ch) && PendingAdds(anchored, after.models, after.settings.ignored) != []
    ensures var ch := Unserved([], ["regex:.", "a"]);
            FreshlyDetected(catchAll, ch) && !FreshlyDetected(catchAll, Applied(ch, Selection([], ["regex:."], [])))
  {
    hide FreshlyDetected;
    hide PendingAdds;
    hide Applied;
    hide Ignores;
    hide OffersRuleAndName;
    AnchoredRule(anchored);
    AddingARuleUnignores(anchored, "regex:^a$", "a");
    CatchAllRule(catchAll);
    IgnoringARuleIgnoresMore(catchAll, "regex:.", "a");
  }

  // ----- The channel object and its row -----

  datatype Row = Row(models: seq<string>, settings: Settings, lastCheck: int)

  datatype UpdateError = FetchFailed | WriteFailed | AbilitiesFailed

  datatype ApplyReport = ApplyReport(selection: Selection, remainingAdds: seq<string>, remainingRemoves: seq<string>, changed: bool)

  datatype CheckReport = CheckReport(changed: bool, autoAdded: int)

  /** A channel as loaded from the database, and the row behind it. */
  class ChannelRecord {
    var models: seq<string>
    var settings: Settings
    var lastCheck: int
    const autoSync: bool
    var row: Row

    ghost function Value(): Channel
      reads this
    {
      Channel(models, settings)
    }

    predicate InSync()
      reads this
    {
      row == Row(models, settings, lastCheck)
    }

    /** Writes the settings, and the models only when told that they changed. */
    method Persist(updateModels: bool, written: bool)
      modifies this`row
      ensures row == if written then Row(if updateModels then models else old(row).models, settings, lastCheck) else old(row)
    {
      if written {
        row := Row(if updateModels then models else row.models, settings, lastCheck);
      }
    }

    method ApplyUpdates(request: Selection, now: int, written: bool, abilitiesUpdated: bool)
      returns (report: Option<ApplyReport>, error: Option<UpdateError>)
      modifies this
      ensures Value() == Applied(old(Value()), request) && lastCheck == now
      ensures row == if !written then old(row)
                     else Row(if report.Some? && report.value.changed then models else old(row).models, settings, lastCheck)
      ensures written && old(InSync()) ==> InSync()
      ensures report.Some? <==> written
      ensures report.Some? ==>
                && report.value.selection == Select(old(settings), request)
                && report.value.remainingAdds == settings.detected
                && report.value.remainingRemoves == settings.removed
                && (report.value.changed <==> Normalize(old(models)) != NextModels(old(models), Select(old(settings), request)))
      ensures error == if !written then Some(WriteFailed)
                       else if report.value.changed && !abilitiesUpdated then Some(AbilitiesFailed) else None
    {
      var sel, changed := ApplySelection(request);
      lastCheck := now;
      Persist(changed, written);
      if !written {
        return None, Some(WriteFailed);
      }
      report := Some(ApplyReport(sel, settings.detected, settings.removed, changed));
      error := if changed && !abilitiesUpdated then Some(AbilitiesFailed) else None;
    }

    /** The part that works on the loaded channel. */
    method ApplySelection(request: Selection) returns (sel: Selection, changed: bool)
      modifies this`models, this`settings
      ensures Value() == Applied(old(Value()), request)
      ensures sel == Select(old(settings), request)
      ensures changed <==> Normalize(old(models)) != NextModels(old(models), sel)
      ensures !changed ==> models == old(models)
    {
      sel := Select(settings, request);
      var origin := Normalize(models);
      var next := ApplySelected(origin, sel.add, sel.remove);
      changed := origin != next;
      if changed {
        models := next;
      }
      var ignored := Merge(settings.ignored, sel.ignore);
      if |sel.add| > 0 {
        ignored := Subtract(ignored, sel.add);
      }
      settings := Settings(ignored, Subtract(Normalize(settings.detected), sel.add + sel.ignore),
                           Subtract(Normalize(settings.removed), sel.remove));
    }

    /** The periodic or forced check. `fetched` tells whether the upstream answered. Automatic adoption takes over
        every pending addition, and reports their number. */
    method CheckAndPersist(world: World, fetched: bool, now: int, minInterval: int, force: bool, allowAutoApply: bool,
                           written: bool, abilitiesUpdated: bool)
      returns (report: CheckReport, error: Option<UpdateError>)
      modifies this
      ensures var skipped := !force && old(lastCheck) > 0 && now - old(lastCheck) < minInterval;
              var adds := PendingAdds(world, old(models), old(settings).ignored);
              var adopted := if fetched && allowAutoApply && autoSync then |adds| else 0;
              && (skipped ==>
                    && Value() == old(Value()) && lastCheck == old(lastCheck) && row == old(row)
                    && report == CheckReport(false, 0) && error.None?)
              && (!skipped ==>
                    && lastCheck == now
                    && report == CheckReport(written && adopted > 0, adopted)
                    && error == if !written then Some(WriteFailed)
                                else if !fetched then Some(FetchFailed)
                                else if adopted > 0 && !abilitiesUpdated then Some(AbilitiesFailed) else None)
              && (!skipped && !fetched ==> Value() == old(Value()))
              && (!skipped && fetched ==>
                    && Value() == Checked(world, old(Value()), allowAutoApply && autoSync)
                    && FreshlyDetected(world, Value()))
              && row == if skipped || !written then old(row)
                        else Row(if report.changed then models else old(row).models, settings, lastCheck)
      ensures written && old(InSync()) ==> InSync()
    {
      report, error := CheckReport(false, 0), None;
      if !force {
        if lastCheck > 0 && now - lastCheck < minInterval {
          return;
        }
      }
      lastCheck := now;
      if !fetched {
        Persist(false, written);
        error := Some(if written then FetchFailed else WriteFailed);
        return;
      }
      var adds := PendingAdds(world, models, settings.ignored);
      var removes := PendingRemoves(world, models);
      CheckLeavesFreshState(world, Value(), allowAutoApply && autoSync);
      if allowAutoApply && autoSync && |adds| > 0 {
        var origin := Normalize(models);
        var merged := Merge(origin, adds);
        AdoptionIsComplete(world, Value());
        if |merged| > |origin| {
          models := merged;
          report := CheckReport(true, |merged| - |origin|);
        }
        settings := settings.(detected := []);
      } else {
        settings := settings.(detected := adds);
      }
      settings := settings.(removed := removes);
      Persist(report.changed, written);
      if !written {
        report, error := CheckReport(false, report.autoAdded), Some(WriteFailed);
      } else if report.changed && !abilitiesUpdated {
        error := Some(AbilitiesFailed);
      }
    }
  }

  lemma AdoptionIsComplete(world: World, ch: Channel)
    requires |PendingAdds(world, ch.models, ch.settings.ignored)| > 0
    ensures var adds := PendingAdds(world, ch.models, ch.settings.ignored);
            |Merge(Normalize(ch.models), adds)| == |Normalize(ch.models)| + |adds|
  {
    AdoptedModels(world, ch);
    var merged := Merge(Normalize(ch.models), PendingAdds(world, ch.models, ch.settings.ignored));
    MergeNormal(Normalize(ch.models), PendingAdds(world, ch.models, ch.settings.ignored));
    NormalizeIsIdempotent(merged);
  }
}
