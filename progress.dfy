/** `updateProgress`: the setup progress panel with its bar, its message
    (a trailing `[speed]` token is split off and shown beside an antenna),
    and the five first-run steps, each completed, active or pending. */
module Progress {
  import opened Text
  import opened Seqs
  import opened Page

  /** The setup steps in their order. */
  const Steps: seq<string> := ["init", "engine", "service", "model", "complete"]

  function Named(step: string): string -> bool {
    (name: string) => name == step
  }

  /** `steps.indexOf(step)`: the position of `step` among the steps, or -1. */
  function StepIndex(step: string): (k: int)
    ensures -1 <= k < |Steps|
    ensures k >= 0 ==> Steps[k] == step
    ensures k < 0 <==> step !in Steps
  {
    FindIndex(Steps, Named(step))
  }

  datatype Phase = Completed | Active | Pending

  /** The class a step at `index` gets while the step at `current` runs. */
  function PhaseOf(index: int, current: int): Phase {
    if index < current then Completed
    else if index == current then Active
    else Pending
  }

  /** The number a step shows while not completed; the last step shows the check mark. */
  function StepLabel(v: Variant, index: nat): string
    requires index < |Steps|
  {
    if index == 0 then "1"
    else if index == 1 then "2"
    else if index == 2 then "3"
    else if index == 3 then "4"
    else CheckMark(v)
  }

  /** The icon text of the step at `index` while the step at `current` runs. */
  function IconText(v: Variant, index: nat, current: int): string
    requires index < |Steps|
  {
    if PhaseOf(index, current) == Completed then CheckMark(v) else StepLabel(v, index)
  }

  /** An unknown step leaves every step pending; a known one is the single
      active step, and exactly the steps before it are completed. */
  lemma PhasesMeaning(step: string)
    ensures step !in Steps ==>
              forall i :: 0 <= i < |Steps| ==> PhaseOf(i, StepIndex(step)) == Pending
    ensures forall i :: 0 <= i < |Steps| ==>
              (PhaseOf(i, StepIndex(step)) == Active <==> Steps[i] == step)
    ensures forall i :: 0 <= i < |Steps| ==>
              (PhaseOf(i, StepIndex(step)) == Completed <==>
                 exists j :: i < j < |Steps| && Steps[j] == step)
  {
    var c := StepIndex(step);
    forall i | 0 <= i < |Steps|
      ensures PhaseOf(i, c) == Completed <==> exists j :: i < j < |Steps| && Steps[j] == step
    {
      if c > i {
        assert Steps[c] == step;
      }
    }
  }

  /** A step shows the check mark exactly when it is completed or is the last step. */
  lemma IconsMeaning(v: Variant, step: string)
    ensures forall i :: 0 <= i < |Steps| ==>
              (IconText(v, i, StepIndex(step)) == CheckMark(v) <==>
                 PhaseOf(i, StepIndex(step)) == Completed || Steps[i] == "complete")
  {
  }

  /** Index of the last `c` in `m[..n]`, or -1. */
  function LastIndexOf(m: string, c: char, n: nat): (k: int)
    requires n <= |m|
    ensures -1 <= k < n
    ensures k >= 0 ==> m[k] == c
    ensures forall j :: k < j < n ==> m[j] != c
  {
    if n == 0 then -1
    else if m[n - 1] == c then n - 1
    else LastIndexOf(m, c, n - 1)
  }

  /** Index of the first `c` in `m[lo..hi]`, or -1. */
  function FirstIndexIn(m: string, c: char, lo: nat, hi: nat): (k: int)
    requires lo <= hi <= |m|
    ensures k == -1 || lo <= k < hi
    ensures k >= 0 ==> m[k] == c
    ensures forall j :: lo <= j < hi && (k < 0 || j < k) ==> m[j] != c
    decreases hi - lo
  {
    if lo == hi then -1
    else if m[lo] == c then lo
    else FirstIndexIn(m, c, lo + 1, hi)
  }

  /** Where `/\s*\[([^\]]+)\]\s*$/` matches: from `start`, whitespace up to
      the `[` at `open`, then at least one character other than `]`, the `]`
      at `close`, and whitespace to the end. */
  datatype Bracket = Bracket(start: nat, open: nat, close: nat)

  /** `m[p..]` is whitespace, `[`, a non-empty run without `]`, `]`, whitespace. */
  ghost predicate BracketShape(m: string, p: int, b: int, e: int) {
    0 <= p <= b && b + 1 < e < |m|
    && AllSpace(m[p..b]) && m[b] == '[' && m[e] == ']' && AllSpace(m[e + 1..])
    && forall j :: b < j < e ==> m[j] != ']'
  }

  /** `m.match(/\s*\[([^\]]+)\]\s*$/)`: the closing `]` is the last
      non-space character, the `[` is the first one after the last earlier
      `]`, and the match starts at the whitespace run before it. */
  function BracketMatch(m: string): (r: Option<Bracket>)
    ensures r.Some? ==> r.value.start <= r.value.open && r.value.open + 1 < r.value.close < |m|
  {
    var e := LastNonSpace(m);
    if e < 1 || m[e] != ']' then None else BracketBefore(m, e)
  }

  /** Index of the last character of `m` that is not whitespace, or -1. */
  function LastNonSpace(m: string): (e: int)
    ensures -1 <= e < |m|
    ensures AllSpace(m[e + 1..])
    ensures e >= 0 ==> !IsSpace(m[e])
  {
    |m| - TrailingSpace(m) - 1
  }

  /** The match whose `]` is at `e`. */
  function BracketBefore(m: string, e: nat): (r: Option<Bracket>)
    requires 1 <= e < |m|
    ensures r.Some? ==> r.value.start <= r.value.open && r.value.open + 1 < r.value.close == e
  {
    var z := LastIndexOf(m, ']', e);
    if z + 1 > e - 1 then None
    else
      var b := FirstIndexIn(m, '[', z + 1, e - 1);
      if b < 0 then None
      else Some(Bracket(SpaceRunBefore(m, b), b, e))
  }

  /** Start of the whitespace run that ends at `b`. */
  function SpaceRunBefore(m: string, b: nat): (p: nat)
    requires b <= |m|
    ensures p <= b && AllSpace(m[p..b])
  {
    var n := TrailingSpace(m[..b]);
    assert m[..b][b - n..] == m[b - n..b];
    b - n
  }

  /** The match is a place where the pattern fits. */
  lemma MatchFits(m: string)
    ensures BracketMatch(m).Some? ==>
              var r := BracketMatch(m).value;
              BracketShape(m, r.start, r.open, r.close)
  {
    var e := LastNonSpace(m);
    if BracketMatch(m).Some? {
      var r := BracketMatch(m).value;
      var z := LastIndexOf(m, ']', e);
    }
  }

  lemma SliceSpaces(s: string, a: nat, b: nat)
    requires a <= b <= |s| && AllSpace(s[a..b])
    ensures forall k :: a <= k < b ==> IsSpace(s[k])
  {
    assert forall k :: a <= k < b ==> s[a..b][k - a] == s[k];
  }

  /** A whitespace suffix is no longer than the longest one. */
  lemma TrailingSpaceAtLeast(s: string, k: nat)
    requires k <= |s| && AllSpace(s[k..])
    ensures TrailingSpace(s) >= |s| - k
  {
    SuffixSpaces(s, k);
  }

  /** The `]` of any fit is the last non-space character. */
  lemma CloseIsLast(m: string, p: int, b: int, e: int)
    requires BracketShape(m, p, b, e)
    ensures LastNonSpace(m) == e
  {
    TrailingSpaceUnique(m, e + 1);
  }

  /** The match starts no later than any whitespace run that ends at a `[`
      at or after its own `[`. */
  lemma StartBefore(m: string, p: nat, b: nat, b0: nat)
    requires p <= b < |m| && b0 <= b && AllSpace(m[p..b])
    requires m[b0] == '['
    ensures SpaceRunBefore(m, b0) <= p
    ensures b0 < b ==> b0 < p
  {
    SliceSpaces(m, p, b);
    if b0 == b {
      assert m[..b][p..] == m[p..b];
      TrailingSpaceAtLeast(m[..b], p);
    }
  }

  lemma MatchAtClose(m: string, e: nat)
    requires 1 <= e < |m| && e == LastNonSpace(m) && m[e] == ']'
    ensures BracketMatch(m) == BracketBefore(m, e)
  {
  }

  lemma BeforeAtOpen(m: string, e: nat, z: int, b0: nat)
    requires 1 <= e < |m| && z == LastIndexOf(m, ']', e) && z + 1 <= e - 1
    requires b0 == FirstIndexIn(m, '[', z + 1, e - 1)
    ensures BracketBefore(m, e) == Some(Bracket(SpaceRunBefore(m, b0), b0, e))
  {
    var r := Some(Bracket(SpaceRunBefore(m, b0), b0, e));
    assert BracketBefore(m, e) == (if z + 1 > e - 1 then None else if b0 < 0 then None else r);
  }

  /** Every place the pattern fits is found, at or after the match's start;
      the match at that start has the same brackets. */
  lemma ShapeFound(m: string, p: int, b: int, e: int)
    requires BracketShape(m, p, b, e)
    ensures BracketMatch(m).Some?
    ensures BracketMatch(m).value.start <= p && BracketMatch(m).value.close == e
    ensures BracketMatch(m).value.start == p ==> BracketMatch(m).value.open == b
  {
    CloseIsLast(m, p, b, e);
    var z := LastIndexOf(m, ']', e);
    assert z < b;
    var b0 := FirstIndexIn(m, '[', z + 1, e - 1);
    assert 0 <= b0 <= b;
    StartBefore(m, p, b, b0);
    MatchAtClose(m, e);
    BeforeAtOpen(m, e, z, b0);
  }

  /** The pattern matches exactly when it fits somewhere, and the match is
      the leftmost place it fits. */
  lemma BracketMatchMeaning(m: string)
    ensures BracketMatch(m).Some? <==> exists p, b, e :: BracketShape(m, p, b, e)
    ensures BracketMatch(m).Some? ==>
              var r := BracketMatch(m).value;
              forall p, b, e :: BracketShape(m, p, b, e) ==>
                r.start <= p && r.close == e && (r.start == p ==> r.open == b)
  {
    forall p, b, e | BracketShape(m, p, b, e)
      ensures BracketMatch(m).Some?
      ensures BracketMatch(m).value.start <= p && BracketMatch(m).value.close == e
      ensures BracketMatch(m).value.start == p ==> BracketMatch(m).value.open == b
    {
      ShapeFound(m, p, b, e);
    }
    MatchFits(m);
  }

  /** `message.replace(/\s*\[[^\]]+\]\s*$/, '')`: the message without the matched token. */
  function StripBracket(m: string): string {
    match BracketMatch(m)
    case None => m
    case Some(r) => m[..r.start]
  }

  /** The stripped message is a prefix of the message, removed exactly where
      the token matched, and unchanged when there is none. */
  lemma StripBracketMeaning(m: string)
    ensures StripBracket(m) <= m
    ensures BracketMatch(m).None? ==> StripBracket(m) == m
    ensures BracketMatch(m).Some? ==>
              var r := BracketMatch(m).value;
              |StripBracket(m)| == r.start && BracketShape(m, |StripBracket(m)|, r.open, r.close)
  {
    MatchFits(m);
  }

  /** The speed shown: the given one when it is not blank, else the trimmed
      text between the brackets of a trailing `[speed]` token. */
  function DerivedSpeed(m: string, speed: string): (r: string)
    ensures Trim(r) == r
    ensures Trim(speed) != "" ==> r == Trim(speed)
  {
    TrimIdempotent(speed);
    if Trim(speed) != "" then Trim(speed)
    else match BracketMatch(m)
      case None => ""
      case Some(b) =>
        TrimIdempotent(m[b.open + 1..b.close]);
        Trim(m[b.open + 1..b.close])
  }

  /** A speed is shown exactly when the given one is not blank or the
      message ends in a bracketed token with a non-blank inside. */
  lemma SpeedShown(m: string, speed: string)
    ensures DerivedSpeed(m, speed) != "" <==>
              !AllSpace(speed)
              || (BracketMatch(m).Some? &&
                  !AllSpace(m[BracketMatch(m).value.open + 1..BracketMatch(m).value.close]))
  {
    TrimSpec(speed);
    if BracketMatch(m).Some? {
      var b := BracketMatch(m).value;
      TrimSpec(m[b.open + 1..b.close]);
    }
  }

  /** The progress text: the message without its speed token, passed through
      `sizes` (the rewrite of `X MB / Y GB` to `Y GB`), then the speed if any. */
  function DisplayMessage(v: Variant, m: string, speed: string, sizes: string -> string): (r: string)
    ensures sizes(StripBracket(m)) <= r
    ensures DerivedSpeed(m, speed) == "" <==> r == sizes(StripBracket(m))
  {
    var d := DerivedSpeed(m, speed);
    sizes(StripBracket(m))
      + (if d != "" then "<br><span class=\"progress-speed\">" + Antenna(v) + " " + d + "</span>" else "")
  }

  /** The progress panel and its step elements; `found[i]` says whether the
      page has the element of step `i`. */
  class ProgressView {
    const variant: Variant
    /** Whether the bar and the text element were found. */
    const hasBar: bool
    const found: array<bool>
    const phases: array<Phase>
    const icons: array<string>
    var percent: int
    var text: string

    ghost predicate Valid() {
      found.Length == |Steps| && phases.Length == |Steps| && icons.Length == |Steps|
    }

    constructor (variant: Variant, hasBar: bool, present: seq<bool>)
      requires |present| == |Steps|
      ensures Valid() && this.variant == variant && this.hasBar == hasBar
      ensures found[..] == present && percent == 0 && text == ""
      ensures forall i :: 0 <= i < |Steps| ==> phases[i] == Pending && icons[i] == StepLabel(variant, i)
      ensures fresh(found) && fresh(phases) && fresh(icons)
    {
      this.variant := variant;
      this.hasBar := hasBar;
      found := new bool[|Steps|](i requires 0 <= i < |present| => present[i]);
      phases := new Phase[|Steps|](_ => Pending);
      icons := new string[|Steps|](i requires 0 <= i < |Steps| => StepLabel(variant, i));
      percent := 0;
      text := "";
    }

    /** The `steps.forEach` loop: every step element on the page gets the
        phase and icon of its position; missing ones are skipped. */
    method UpdateSteps(step: string)
      requires Valid()
      modifies phases, icons
      ensures forall i :: 0 <= i < |Steps| && found[i] ==>
                phases[i] == PhaseOf(i, StepIndex(step)) && icons[i] == IconText(variant, i, StepIndex(step))
      ensures forall i :: 0 <= i < |Steps| && !found[i] ==>
                phases[i] == old(phases[i]) && icons[i] == old(icons[i])
    {
      var current := StepIndex(step);
      for index := 0 to |Steps|
        invariant forall i :: 0 <= i < index && found[i] ==>
                    phases[i] == PhaseOf(i, current) && icons[i] == IconText(variant, i, current)
        invariant forall i :: 0 <= i < |Steps| && (index <= i || !found[i]) ==>
                    phases[i] == old(phases[i]) && icons[i] == old(icons[i])
      {
        if found[index] {
          MarkStep(index, current);
        }
      }
    }

    /** One step element: completed before the current step, active at it,
        pending after it. */
    method MarkStep(index: nat, current: int)
      requires Valid() && index < |Steps|
      modifies phases, icons
      ensures phases[index] == PhaseOf(index, current) && icons[index] == IconText(variant, index, current)
      ensures forall i :: 0 <= i < |Steps| && i != index ==>
                phases[i] == old(phases[i]) && icons[i] == old(icons[i])
    {
      if index < current {
        phases[index] := Completed;
        icons[index] := CheckMark(variant);
      } else if index == current {
        phases[index] := Active;
        icons[index] := StepLabel(variant, index);
      } else {
        phases[index] := Pending;
        icons[index] := StepLabel(variant, index);
      }
    }

    /** `updateProgress(step, message, percent, speed)`. Answers whether the
        two-second timer that ends the setup is started. */
    method Update(step: string, message: string, percent: int, speed: string, sizes: string -> string)
      returns (finishes: bool)
      requires Valid()
      modifies this, phases, icons
      ensures !hasBar ==> this.percent == old(this.percent) && text == old(text)
                          && phases[..] == old(phases[..]) && icons[..] == old(icons[..]) && !finishes
      ensures hasBar ==> this.percent == percent && text == DisplayMessage(variant, message, speed, sizes)
      ensures hasBar ==> forall i :: 0 <= i < |Steps| ==>
                if found[i] then phases[i] == PhaseOf(i, StepIndex(step)) && icons[i] == IconText(variant, i, StepIndex(step))
                else phases[i] == old(phases[i]) && icons[i] == old(icons[i])
      ensures hasBar ==> (finishes <==> step == "complete" && percent >= 100)
    {
      if !hasBar {
        return false;
      }
      this.percent := percent;
      text := DisplayMessage(variant, message, speed, sizes);
      UpdateSteps(step);
      finishes := step == "complete" && percent >= 100;
    }
  }
}
