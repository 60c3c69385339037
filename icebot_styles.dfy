/** The "Selected Styles" list of lib/icebot.ts (`generatePrompt`, lines
    158-167): the style flags the composer reads and the names it pushes
    for them, in push order. */
module IceBotStyles {

  /** The parameter type `generatePrompt` declares: nine flags. */
  datatype PromptStyle = PromptStyle(
    funny: bool, flirty: bool, serious: bool, pervy: bool, corny: bool,
    knockKnock: bool, cooking: bool, question: bool, asshole: bool)

  /** The modes the composer reads. */
  datatype Mode = Asshole | Funny | Flirty | Serious | Pervy | Corny | KnockKnock | Cooking | Question

  function IsOn(ms: PromptStyle, m: Mode): bool {
    match m
    case Asshole => ms.asshole
    case Funny => ms.funny
    case Flirty => ms.flirty
    case Serious => ms.serious
    case Pervy => ms.pervy
    case Corny => ms.corny
    case KnockKnock => ms.knockKnock
    case Cooking => ms.cooking
    case Question => ms.question
  }

  /** The order in which style names are pushed for the "Selected Styles" line. */
  const ListOrder: seq<Mode> := [Asshole, Funny, Flirty, Serious, Pervy, Corny, KnockKnock, Cooking]

  /** The order of the guidance blocks in the template: Serious comes after
      Cooking here, unlike in `ListOrder`, and Question closes the list. */
  const BlockOrder: seq<Mode> := [Asshole, Funny, Flirty, Pervy, Corny, KnockKnock, Cooking, Serious, Question]

  /** The name pushed for a mode. */
  function Label(m: Mode): string {
    match m
    case Asshole => "Asshole"
    case Funny => "Funny"
    case Flirty => "Flirty"
    case Serious => "Serious"
    case Pervy => "Pervy"
    case Corny => "Corny"
    case KnockKnock => "Knock Knock"
    case Cooking => "Cooking"
    case Question => "Question"
  }

  /** The elements one guarded push adds: `[x]` when `on`, nothing otherwise. */
  function Pushed<T>(on: bool, x: T): seq<T> {
    if on then [x] else []
  }

  /** The position of a mode in `ListOrder`; `Question`, which is never
      pushed, comes after all of them. */
  function Rank(m: Mode): (r: nat)
    ensures m != Question <==> r < |ListOrder|
    ensures m != Question ==> ListOrder[r] == m
  {
    match m
    case Asshole => 0
    case Funny => 1
    case Flirty => 2
    case Serious => 3
    case Pervy => 4
    case Corny => 5
    case KnockKnock => 6
    case Cooking => 7
    case Question => 8
  }

  /** The modes of `order` whose flag is set, in the order of `order`. */
  function Selected(ms: PromptStyle, order: seq<Mode>): seq<Mode> {
    if order == [] then []
    else Selected(ms, order[..|order| - 1]) + Pushed(IsOn(ms, order[|order| - 1]), order[|order| - 1])
  }

  /** The modes named on the "Selected Styles" line (reference definition:
      the set flags of `ListOrder`, in that order). */
  function ActiveModes(ms: PromptStyle): seq<Mode> {
    Selected(ms, ListOrder)
  }

  /** The names of `modes`, in order. */
  function Labels(modes: seq<Mode>): seq<string> {
    seq(|modes|, i requires 0 <= i < |modes| => Label(modes[i]))
  }

  /** `if (flag) styles.push(name)`: one of the eight guarded pushes. */
  method PushWhen(styles: seq<string>, flag: bool, name: string) returns (out: seq<string>)
    ensures flag ==> out == styles + [name]
    ensures !flag ==> out == styles
    ensures out == styles + Pushed(flag, name)
  {
    out := styles;
    if flag {
      out := out + [name];
    }
  }

  /** The `styles` array `generatePrompt` builds: the names of the set flags
      among the first eight, in `ListOrder`. */
  method CollectStyles(ms: PromptStyle) returns (styles: seq<string>)
    ensures styles == Labels(ActiveModes(ms))
  {
    styles := [];
    styles := PushWhen(styles, ms.asshole, "Asshole");
    styles := PushWhen(styles, ms.funny, "Funny");
    styles := PushWhen(styles, ms.flirty, "Flirty");
    styles := PushWhen(styles, ms.serious, "Serious");
    styles := PushWhen(styles, ms.pervy, "Pervy");
    styles := PushWhen(styles, ms.corny, "Corny");
    styles := PushWhen(styles, ms.knockKnock, "Knock Knock");
    styles := PushWhen(styles, ms.cooking, "Cooking");
    LabelsOfActiveModes(ms);
  }

  /** Selecting from a list extended by one mode pushes that mode when its
      flag is set. */
  lemma SelectedSnoc(ms: PromptStyle, order: seq<Mode>, m: Mode)
    ensures Selected(ms, order + [m]) == Selected(ms, order) + Pushed(IsOn(ms, m), m)
  {
    assert (order + [m])[..|order|] == order;
  }

  /** `ListOrder`, selected one mode at a time, is the sequence of pushes. */
  lemma ActiveModesPushes(ms: PromptStyle)
    ensures ActiveModes(ms) ==
      [] + Pushed(ms.asshole, Asshole) + Pushed(ms.funny, Funny) + Pushed(ms.flirty, Flirty) +
      Pushed(ms.serious, Serious) + Pushed(ms.pervy, Pervy) + Pushed(ms.corny, Corny) +
      Pushed(ms.knockKnock, KnockKnock) + Pushed(ms.cooking, Cooking)
  {
    var o0: seq<Mode> := [];
    var o1 := o0 + [Asshole];
    var o2 := o1 + [Funny];
    var o3 := o2 + [Flirty];
    var o4 := o3 + [Serious];
    var o5 := o4 + [Pervy];
    var o6 := o5 + [Corny];
    var o7 := o6 + [KnockKnock];
    var o8 := o7 + [Cooking];
    assert o8 == ListOrder;
    SelectedSnoc(ms, o0, Asshole);
    SelectedSnoc(ms, o1, Funny);
    SelectedSnoc(ms, o2, Flirty);
    SelectedSnoc(ms, o3, Serious);
    SelectedSnoc(ms, o4, Pervy);
    SelectedSnoc(ms, o5, Corny);
    SelectedSnoc(ms, o6, KnockKnock);
    SelectedSnoc(ms, o7, Cooking);
  }

  /** Naming commutes with a guarded push. */
  lemma LabelsPushed(modes: seq<Mode>, on: bool, m: Mode)
    ensures Labels(modes + Pushed(on, m)) == Labels(modes) + Pushed(on, Label(m))
  {
    if on {
      assert Labels(modes + [m])[|modes|] == Label(m);
    } else {
      assert modes + [] == modes;
    }
  }

  /** The names of the active modes are the names the eight guarded pushes add. */
  lemma LabelsOfActiveModes(ms: PromptStyle)
    ensures Labels(ActiveModes(ms)) ==
      [] + Pushed(ms.asshole, "Asshole") + Pushed(ms.funny, "Funny") + Pushed(ms.flirty, "Flirty") +
      Pushed(ms.serious, "Serious") + Pushed(ms.pervy, "Pervy") + Pushed(ms.corny, "Corny") +
      Pushed(ms.knockKnock, "Knock Knock") + Pushed(ms.cooking, "Cooking")
  {
    ActiveModesPushes(ms);
    var m0: seq<Mode> := [];
    var m1 := m0 + Pushed(ms.asshole, Asshole);
    var m2 := m1 + Pushed(ms.funny, Funny);
    var m3 := m2 + Pushed(ms.flirty, Flirty);
    var m4 := m3 + Pushed(ms.serious, Serious);
    var m5 := m4 + Pushed(ms.pervy, Pervy);
    var m6 := m5 + Pushed(ms.corny, Corny);
    var m7 := m6 + Pushed(ms.knockKnock, KnockKnock);
    assert Labels(m0) == [];
    LabelsPushed(m0, ms.asshole, Asshole);
    LabelsPushed(m1, ms.funny, Funny);
    LabelsPushed(m2, ms.flirty, Flirty);
    LabelsPushed(m3, ms.serious, Serious);
    LabelsPushed(m4, ms.pervy, Pervy);
    LabelsPushed(m5, ms.corny, Corny);
    LabelsPushed(m6, ms.knockKnock, KnockKnock);
    LabelsPushed(m7, ms.cooking, Cooking);
  }

  /** Membership in `Selected`: exactly the listed modes whose flag is set. */
  lemma {:induction false} SelectedMembership(ms: PromptStyle, order: seq<Mode>, m: Mode)
    ensures m in Selected(ms, order) <==> m in order && IsOn(ms, m)
  {
    if order != [] {
      SelectedMembership(ms, order[..|order| - 1], m);
      assert order == order[..|order| - 1] + [order[|order| - 1]];
    }
  }

  /** Each of the first eight flags puts its mode in the list exactly when it
      is set; `question` never does. */
  lemma ActiveModesExact(ms: PromptStyle, m: Mode)
    ensures m in ActiveModes(ms) <==> m != Question && IsOn(ms, m)
  {
    SelectedMembership(ms, ListOrder, m);
    if m != Question {
      assert ListOrder[Rank(m)] == m;
    }
  }

  /** Strictly increasing positions in `ListOrder`. */
  predicate RankOrdered(modes: seq<Mode>) {
    forall i, j :: 0 <= i < j < |modes| ==> Rank(modes[i]) < Rank(modes[j])
  }

  /** Selecting keeps the order of the list selected from. */
  lemma {:induction false} SelectedOrdered(ms: PromptStyle, order: seq<Mode>)
    requires RankOrdered(order)
    ensures RankOrdered(Selected(ms, order))
  {
    if order != [] {
      var init := order[..|order| - 1];
      var last := order[|order| - 1];
      assert RankOrdered(init);
      SelectedOrdered(ms, init);
      var s := Selected(ms, init);
      if IsOn(ms, last) {
        var r := s + [last];
        forall i, j | 0 <= i < j < |r|
          ensures Rank(r[i]) < Rank(r[j])
        {
          if j == |s| {
            SelectedMembership(ms, init, r[i]);
            var k :| 0 <= k < |init| && init[k] == r[i];
            assert order[k] == r[i];
          }
        }
      } else {
        assert s + [] == s;
      }
    }
  }

  /** The pushes follow `ListOrder`: the selected modes appear in that order. */
  lemma ActiveModesOrdered(ms: PromptStyle)
    ensures RankOrdered(ActiveModes(ms))
  {
    forall i, j | 0 <= i < j < |ListOrder|
      ensures Rank(ListOrder[i]) < Rank(ListOrder[j])
    {
      assert Rank(ListOrder[i]) == i && Rank(ListOrder[j]) == j;
    }
    SelectedOrdered(ms, ListOrder);
  }

  /** Distinct modes have distinct positions. */
  lemma RankInjective(a: Mode, b: Mode)
    requires Rank(a) == Rank(b)
    ensures a == b
  {
  }

  /** The first element of an ordered list has the least position. */
  lemma HeadLeast(modes: seq<Mode>, m: Mode)
    requires RankOrdered(modes) && m in modes
    ensures Rank(modes[0]) <= Rank(m)
  {
    var k :| 0 <= k < |modes| && modes[k] == m;
    if k != 0 {
      assert Rank(modes[0]) < Rank(modes[k]);
    }
  }

  /** The tail of an ordered list holds all its members but the first. */
  lemma TailMembers(modes: seq<Mode>, m: Mode)
    requires RankOrdered(modes) && modes != []
    ensures m in modes[1..] <==> m in modes && m != modes[0]
  {
    if m in modes[1..] {
      var k :| 1 <= k < |modes| && modes[k] == m;
      assert modes[1..][k - 1] == modes[k];
      assert Rank(modes[0]) < Rank(modes[k]);
    }
    if m in modes && m != modes[0] {
      var k :| 0 <= k < |modes| && modes[k] == m;
      assert modes[1..][k - 1] == m;
    }
  }

  /** Two ordered lists with the same members are equal. */
  lemma {:induction false} RankOrderedUnique(a: seq<Mode>, b: seq<Mode>)
    requires RankOrdered(a) && RankOrdered(b)
    requires forall m :: m in a <==> m in b
    ensures a == b
  {
    if a != [] && b != [] {
      HeadLeast(a, b[0]);
      HeadLeast(b, a[0]);
      RankInjective(a[0], b[0]);
      forall m
        ensures m in a[1..] <==> m in b[1..]
      {
        TailMembers(a, m);
        TailMembers(b, m);
      }
      assert RankOrdered(a[1..]) && RankOrdered(b[1..]);
      RankOrderedUnique(a[1..], b[1..]);
      assert a == [a[0]] + a[1..] && b == [b[0]] + b[1..];
    } else {
      SameMembersBothEmpty(a, b);
    }
  }

  /** Lists with the same members are empty together. */
  lemma SameMembersBothEmpty<T>(a: seq<T>, b: seq<T>)
    requires forall m :: m in a <==> m in b
    ensures a == [] <==> b == []
  {
    if a != [] {
      assert a[0] in b;
    }
    if b != [] {
      assert b[0] in a;
    }
  }

  /** The list of selected modes is determined by what it promises: any list
      ordered as `ListOrder` that holds exactly the set flags among the first
      eight is that list. */
  lemma ActiveModesCharacterised(ms: PromptStyle, modes: seq<Mode>)
    requires RankOrdered(modes)
    requires forall m :: m in modes <==> m != Question && IsOn(ms, m)
    ensures modes == ActiveModes(ms)
  {
    ActiveModesOrdered(ms);
    forall m
      ensures m in modes <==> m in ActiveModes(ms)
    {
      ActiveModesExact(ms, m);
    }
    RankOrderedUnique(modes, ActiveModes(ms));
  }

  lemma LabelInjective(a: Mode, b: Mode)
    requires Label(a) == Label(b)
    ensures a == b
  {
  }

  /** The "Selected Styles" names: a name is listed exactly when its flag is
      set, and `Question` is never listed. */
  lemma SelectedStylesExact(ms: PromptStyle, m: Mode)
    ensures Label(m) in Labels(ActiveModes(ms)) <==> m != Question && IsOn(ms, m)
  {
    ActiveModesExact(ms, m);
    var modes := ActiveModes(ms);
    if Label(m) in Labels(modes) {
      var i :| 0 <= i < |modes| && Labels(modes)[i] == Label(m);
      LabelInjective(modes[i], m);
    }
    if m in modes {
      var i :| 0 <= i < |modes| && modes[i] == m;
      assert Labels(modes)[i] == Label(m);
    }
  }
}
