/** The action vocabulary the Tap Dial reports through zigbee2mqtt, and the
    facts about these names that the gesture classifier relies on. */
module Actions {
  import opened Values

  /** The four buttons of the device. */
  type ButtonNum = n: int | 1 <= n <= 4 witness 1

  /** A `str.format` template with a single `{}` placeholder. */
  datatype Template = Template(before: string, after: string)

  const ButtonPress := Template("button_", "_press")
  const ButtonRelease := Template("button_", "_press_release")
  const ButtonHold := Template("button_", "_hold")
  const ButtonHoldRelease := Template("button_", "_hold_release")

  const DialRotateLeftSlow := "dial_rotate_left_slow"
  const DialRotateLeftFast := "dial_rotate_left_fast"
  const DialRotateRightSlow := "dial_rotate_right_slow"
  const DialRotateRightFast := "dial_rotate_right_fast"

  const BrightnessStepUp := "brightness_step_up"
  const BrightnessStepDown := "brightness_step_down"

  /** The button templates in the order `ALL_ACTIONS` lists them. */
  const ButtonTemplates: seq<Template> :=
    [ButtonPress, ButtonRelease, ButtonHold, ButtonHoldRelease]

  /** The legacy rotate actions. */
  const RotateActions: seq<string> :=
    [DialRotateLeftSlow, DialRotateLeftFast, DialRotateRightSlow, DialRotateRightFast]

  /** The first six entries of `ALL_ACTIONS`. */
  const DialActions: seq<string> :=
    RotateActions + [BrightnessStepUp, BrightnessStepDown]

  /** `template.format(n)` for a button number (one decimal digit). */
  function Format(t: Template, n: ButtonNum): string
  {
    t.before + [Digit(n)] + t.after
  }

  /** The four actions of one button, in the order `ALL_ACTIONS` adds them. */
  function ButtonActions(n: ButtonNum): seq<string>
  {
    [Format(ButtonPress, n), Format(ButtonRelease, n),
     Format(ButtonHold, n), Format(ButtonHoldRelease, n)]
  }

  /** `ALL_ACTIONS` after the blocks of buttons 1..k have been added. */
  function ActionsThrough(k: nat): seq<string>
    requires k <= 4
  {
    if k == 0 then DialActions else ActionsThrough(k - 1) + ButtonActions(k)
  }

  /** `ALL_ACTIONS`: the dial names, then each button's block. */
  function AllActions(): seq<string>
  {
    ActionsThrough(4)
  }

  /** The module-level construction of `ALL_ACTIONS`: start from the six dial
      names and extend the list once per button. */
  method BuildAllActions() returns (all: seq<string>)
    ensures all == AllActions()
  {
    all := DialActions;
    for i := 1 to 5
      invariant all == ActionsThrough(i - 1)
    {
      all := all + ButtonActions(i);
    }
  }

  // ---------------------------------------------------------------------
  // Facts about the vocabulary

  /** `ALL_ACTIONS` has 22 entries: the six dial names, then for each button
      its press, press_release, hold and hold_release names. */
  lemma {:induction false} AllActionsLayout()
    ensures |AllActions()| == 22 && AllActions()[..6] == DialActions
    ensures forall n: ButtonNum, k :: 0 <= k < 4 ==>
              AllActions()[6 + 4 * (n - 1) + k] == Format(ButtonTemplates[k], n)
  {
  }

  lemma {:induction false} ThroughLayout(m: nat)
    requires m <= 4
    ensures |ActionsThrough(m)| == 6 + 4 * m && ActionsThrough(m)[..6] == DialActions
    ensures forall n: ButtonNum, k :: n <= m && 0 <= k < 4 ==>
              ActionsThrough(m)[6 + 4 * (n - 1) + k] == Format(ButtonTemplates[k], n)
  {
    if m > 0 {
      ThroughLayout(m - 1);
    }
  }

  lemma FormatShape(t: Template, n: ButtonNum)
    requires t in ButtonTemplates
    ensures var s := Format(t, n);
      |s| == 8 + |t.after| && s[..7] == "button_" && s[7] == Digit(n) && s[8..] == t.after
  {
  }

  /** The sixteen button names are pairwise distinct: a name determines its
      template and its button number. */
  lemma ButtonNamesInjective(t1: Template, n1: ButtonNum, t2: Template, n2: ButtonNum)
    requires t1 in ButtonTemplates && t2 in ButtonTemplates
    ensures Format(t1, n1) == Format(t2, n2) <==> t1 == t2 && n1 == n2
  {
    FormatShape(t1, n1);
    FormatShape(t2, n2);
    if n1 != n2 {
      assert Format(t1, n1)[7] != Format(t2, n2)[7];
    } else if t1 != t2 {
      assert Format(t1, n1)[8..] != Format(t2, n2)[8..];
    }
  }

  /** No button name is a dial or brightness name. */
  lemma ButtonNameIsNotDial(t: Template, n: ButtonNum)
    requires t in ButtonTemplates
    ensures Format(t, n) !in DialActions
  {
    FormatShape(t, n);
    assert Format(t, n)[1] == 'u';
  }

  /** The six dial and brightness names are pairwise distinct. */
  lemma DialActionsDistinct()
    ensures forall i, j :: 0 <= i < j < 6 ==> DialActions[i] != DialActions[j]
  {
  }

  /** `ALL_ACTIONS` lists 22 pairwise distinct names. */
  lemma AllActionsDistinct()
    ensures |AllActions()| == 22
    ensures forall i, j :: 0 <= i < j < 22 ==> AllActions()[i] != AllActions()[j]
  {
    AllActionsLayout();
    forall i, j | 0 <= i < j < 22 ensures AllActions()[i] != AllActions()[j] {
      EntriesDiffer(i, j);
    }
  }

  /** The entry of `ALL_ACTIONS` at a position past the dial names. */
  lemma ButtonEntry(i: int)
    requires 6 <= i < 22
    ensures |AllActions()| == 22
    ensures AllActions()[i] == Format(ButtonTemplates[(i - 6) % 4], (i - 6) / 4 + 1)
  {
    AllActionsLayout();
    var n: ButtonNum := (i - 6) / 4 + 1;
    assert i == 6 + 4 * (n - 1) + (i - 6) % 4;
  }

  /** The entry of `ALL_ACTIONS` at a position among the dial names. */
  lemma DialEntry(i: int)
    requires 0 <= i < 6
    ensures |AllActions()| == 22 && AllActions()[i] == DialActions[i]
  {
    AllActionsLayout();
    assert AllActions()[..6][i] == AllActions()[i];
  }

  lemma EntriesDiffer(i: int, j: int)
    requires 0 <= i < j < 22
    ensures |AllActions()| == 22 && AllActions()[i] != AllActions()[j]
  {
    if j < 6 {
      DialEntry(i);
      DialEntry(j);
      DialActionsDistinct();
    } else if i < 6 {
      DialEntry(i);
      ButtonEntry(j);
      ButtonNameIsNotDial(ButtonTemplates[(j - 6) % 4], (j - 6) / 4 + 1);
    } else {
      ButtonEntry(i);
      ButtonEntry(j);
      ButtonNamesInjective(ButtonTemplates[(i - 6) % 4], (i - 6) / 4 + 1,
                           ButtonTemplates[(j - 6) % 4], (j - 6) / 4 + 1);
    }
  }

  /** The short/long split: a press release mentions "press_release", a hold
      release does not. */
  lemma ReleaseNamesSplit(n: ButtonNum)
    ensures Contains(Format(ButtonRelease, n), "press_release")
    ensures !Contains(Format(ButtonHoldRelease, n), "press_release")
  {
    PressReleaseNamed(n);
    HoldReleaseUnnamed(n);
  }

  lemma PressReleaseNamed(n: ButtonNum)
    ensures Contains(Format(ButtonRelease, n), "press_release")
  {
    ContainsSplice("button_" + [Digit(n)] + "_", "press_release", "");
    assert Format(ButtonRelease, n) == "button_" + [Digit(n)] + "_" + "press_release" + "";
  }

  lemma HoldReleaseUnnamed(n: ButtonNum)
    ensures !Contains(Format(ButtonHoldRelease, n), "press_release")
  {
    assert 'p' !in Format(ButtonHoldRelease, n);
    MissingCharExcludes(Format(ButtonHoldRelease, n), "press_release", 0);
  }

  /** No legacy rotate name contains "_step". */
  lemma RotateNamesHaveNoStep(a: string)
    requires a in RotateActions
    ensures !Contains(a, "_step")
  {
    assert 'p' !in a;
    MissingCharExcludes(a, "_step", 4);
  }

  /** Among the rotate names, "right" marks exactly the RIGHT ones. */
  lemma RotateNameRight(a: string)
    requires a in RotateActions
    ensures Contains(a, "right") <==> a == DialRotateRightSlow || a == DialRotateRightFast
  {
    if a == DialRotateRightSlow || a == DialRotateRightFast {
      var tail := a[17..];
      assert a == "dial_rotate_" + "right" + tail;
      ContainsSplice("dial_rotate_", "right", tail);
    } else {
      assert 'g' !in a;
      MissingCharExcludes(a, "right", 2);
    }
  }

  /** A name whose only occurrences of `sub[0]` sit in `rest`, at its head,
      followed by something other than `sub[1]`, does not contain `sub`. */
  lemma LoneHeadExcludes(pre: string, rest: string, sub: string)
    requires |sub| >= 2 && |rest| >= 2 && sub[0] !in pre
    requires rest[0] == sub[0] && rest[1] != sub[1] && sub[0] !in rest[1..]
    ensures !Contains(pre + rest, sub)
  {
    MissingCharExcludes(rest[1..], sub, 0);
    assert !IsPrefix(sub, rest) by {
      if |sub| <= |rest| {
        assert rest[..|sub|][1] != sub[1];
      }
    }
    if Contains(pre + rest, sub) {
      ContainsPastPrefix(pre, rest, sub);
    }
  }

  /** "fast" does not occur in "dial_rotate_left_slow", although each of its
      letters does: the only 'f' is followed by 't'. */
  lemma LeftSlowIsNotFast()
    ensures !Contains(DialRotateLeftSlow, "fast")
  {
    var pre, rest := "dial_rotate_le", "ft_slow";
    assert DialRotateLeftSlow == pre + rest;
    assert 'f' !in rest[1..];
    LoneHeadExcludes(pre, rest, "fast");
  }

  /** Among the rotate names, "fast" marks exactly the FAST ones. */
  lemma RotateNameFast(a: string)
    requires a in RotateActions
    ensures Contains(a, "fast") <==> a == DialRotateLeftFast || a == DialRotateRightFast
  {
    if a == DialRotateLeftFast || a == DialRotateRightFast {
      EndsWith(a, "fast");
    } else if a == DialRotateRightSlow {
      assert 'f' !in a;
      MissingCharExcludes(a, "fast", 0);
    } else {
      LeftSlowIsNotFast();
    }
  }

  /** A name ending in `sub` contains it. */
  lemma EndsWith(a: string, sub: string)
    requires |sub| <= |a| && a[|a| - |sub|..] == sub
    ensures Contains(a, sub)
  {
    assert a == a[..|a| - |sub|] + sub + "";
    ContainsSplice(a[..|a| - |sub|], sub, "");
  }
}
