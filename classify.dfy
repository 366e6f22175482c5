/**
 * The per-delivery classifiers of the newer analytics page: legality of a delivery, its phase of
 * the innings, overs from a ball count, and the coarse pace/spin style of the bowler.
 */
module Classify {
  import opened Common
  import opened Text

  /** `LEGAL_EXTRAS`: despite its name, the set of `ball_type` values that make a delivery
      illegal (wides and no-balls). */
  const WideOrNoBall: set<string> := {"wd", "wide", "nb", "noball", "no_ball"}

  /** `is_legal`: a missing value (None or NaN) is legal; otherwise the value, stripped and
      lower-cased, must not be a wide or no-ball marker. */
  function IsLegal(ballType: Option<string>): bool {
    match ballType
    case None => true
    case Some(t) => Lower(Strip(t)) !in WideOrNoBall
  }

  lemma LowerKeepsSpaces(s: string)
    ensures forall i :: 0 <= i < |s| ==> (IsSpace(Lower(s)[i]) <==> IsSpace(s[i]))
  {
  }

  /** Legality does not depend on capitals or on surrounding whitespace. */
  lemma IsLegalIgnoresCaseAndPadding(t: string)
    ensures IsLegal(Some(Lower(t))) == IsLegal(Some(t))
    ensures IsLegal(Some(Strip(t))) == IsLegal(Some(t))
    ensures IsLegal(Some(Lower(Strip(t)))) == IsLegal(Some(t))
  {
    StripIdempotent(t);
    var u := Strip(t);
    LowerIdempotent(u);
    LowerKeepsSpaces(u);
    assert Strip(Lower(u)) == Lower(u) by {
      assert Lower(u) == [] || (!IsSpace(Lower(u)[0]) && !IsSpace(Lower(u)[|u| - 1]));
      assert TrimStart(Lower(u)) == Lower(u);
    }
    LowerStripCommute(t);
  }

  /** Lower-casing first or stripping first gives the same string: capitals are never spaces. */
  lemma {:induction false} LowerStripCommute(t: string)
    ensures Strip(Lower(t)) == Lower(Strip(t))
  {
    LowerTrimStartCommute(t);
    LowerTrimEndCommute(TrimStart(t));
  }

  lemma {:induction false} LowerTrimStartCommute(t: string)
    ensures TrimStart(Lower(t)) == Lower(TrimStart(t))
    decreases |t|
  {
    if t != [] {
      LowerHead(t);
      LowerCharSpace(t[0]);
      if IsSpace(t[0]) {
        calc {
          TrimStart(Lower(t));
          TrimStart(Lower(t)[1..]);
          TrimStart(Lower(t[1..]));
          { LowerTrimStartCommute(t[1..]); }
          Lower(TrimStart(t[1..]));
          Lower(TrimStart(t));
        }
      }
    }
  }

  /** Lower-casing never makes or unmakes a whitespace character. */
  lemma LowerCharSpace(c: char)
    ensures IsSpace(LowerChar(c)) == IsSpace(c)
  {
  }

  /** Lower-casing a non-empty text lower-cases its first character and the rest separately. */
  lemma {:induction false} LowerHead(t: string)
    requires t != []
    ensures Lower(t)[0] == LowerChar(t[0])
    ensures Lower(t)[1..] == Lower(t[1..])
  {
  }

  lemma {:induction false} LowerTrimEndCommute(t: string)
    ensures TrimEnd(Lower(t)) == Lower(TrimEnd(t))
    decreases |t|
  {
    if t != [] {
      var n := |t| - 1;
      LowerLast(t);
      LowerCharSpace(t[n]);
      if IsSpace(t[n]) {
        calc {
          TrimEnd(Lower(t));
          TrimEnd(Lower(t)[..n]);
          TrimEnd(Lower(t[..n]));
          { LowerTrimEndCommute(t[..n]); }
          Lower(TrimEnd(t[..n]));
          Lower(TrimEnd(t));
        }
      }
    }
  }

  /** Lower-casing a non-empty text lower-cases its last character and the rest separately. */
  lemma {:induction false} LowerLast(t: string)
    requires t != []
    ensures Lower(t)[|t| - 1] == LowerChar(t[|t| - 1])
    ensures Lower(t)[..|t| - 1] == Lower(t[..|t| - 1])
  {
  }

  lemma IsLegalVia(t: string, n: string)
    requires Lower(Strip(t)) == n
    ensures IsLegal(Some(t)) == (n !in WideOrNoBall)
  {
  }

  /** A missing ball type is legal; so is an empty one. */
  lemma MissingTypeIsLegal()
    ensures IsLegal(None)
    ensures IsLegal(Some(""))
  {
    EmptyIsPlain();
    IsLegalVia("", "");
  }

  /** The wide marker "wd" makes a delivery illegal. */
  lemma WdIsIllegal()
    ensures !IsLegal(Some("wd"))
  {
    WdIsPlain();
    IsLegalVia("wd", "wd");
  }

  /** Capitals do not hide a marker: "WIDE" is illegal. */
  lemma CapitalWideIsIllegal()
    ensures !IsLegal(Some("WIDE"))
  {
    CapitalWideNormalised();
    IsLegalVia("WIDE", "wide");
  }

  /** Padding does not hide a marker: " Nb " is illegal. */
  lemma PaddedNbIsIllegal()
    ensures !IsLegal(Some(" Nb "))
  {
    PaddedNbNormalised();
    IsLegalVia(" Nb ", "nb");
  }

  /** The spelling "no ball" with a space is not among the markers, so it counts as legal. */
  lemma SpacedNoBallIsLegal()
    ensures IsLegal(Some("no ball"))
  {
    SpacedNoBallIsPlain();
    SpacedNoBallIsNoMarker();
    IsLegalVia("no ball", "no ball");
  }

  /** The text "nan" that `astype(str)` makes of an empty cell is legal. */
  lemma NanTextIsLegal()
    ensures IsLegal(Some("nan"))
  {
    NanIsPlain();
    NanIsNoMarker();
    IsLegalVia("nan", "nan");
  }

  lemma EmptyIsPlain()
    ensures Lower(Strip("")) == ""
  {
    StripUnpadded("");
    LowerNoCapitals("");
  }

  lemma WdIsPlain()
    ensures Lower(Strip("wd")) == "wd"
  {
    StripUnpadded("wd");
    LowerNoCapitals("wd");
  }

  lemma CapitalWideNormalised()
    ensures Lower(Strip("WIDE")) == "wide"
  {
    StripUnpadded("WIDE");
    assert Lower("WIDE") == "wide";
  }

  lemma PaddedNbNormalised()
    ensures Lower(Strip(" Nb ")) == "nb"
  {
    PaddedNbStripped();
    LowerNb();
    LowerOfStripped(" Nb ", "Nb", "nb");
  }

  lemma LowerNb()
    ensures Lower("Nb") == "nb"
  {
  }

  lemma LowerOfStripped(t: string, s: string, n: string)
    requires Strip(t) == s && Lower(s) == n
    ensures Lower(Strip(t)) == n
  {
  }

  lemma PaddedNbStripped()
    ensures Strip(" Nb ") == "Nb"
  {
    var t := " Nb ";
    assert t[1..] == "Nb ";
    assert "Nb "[..2] == "Nb";
    StripUnpadded("Nb");
    assert TrimStart("Nb ") == "Nb ";
    assert TrimStart(t) == "Nb ";
    assert TrimEnd("Nb ") == TrimEnd("Nb");
  }

  lemma SpacedNoBallIsPlain()
    ensures Lower(Strip("no ball")) == "no ball"
  {
    StripUnpadded("no ball");
    LowerNoCapitals("no ball");
  }

  lemma SpacedNoBallIsNoMarker()
    ensures "no ball" !in WideOrNoBall
  {
    assert "no ball"[2] != "no_ball"[2];
  }

  lemma NanIsPlain()
    ensures Lower(Strip("nan")) == "nan"
  {
    StripUnpadded("nan");
    LowerNoCapitals("nan");
  }

  lemma NanIsNoMarker()
    ensures "nan" !in WideOrNoBall
  {
  }

  /** `over_from_balls`: `balls // 6 + (balls % 6) / 6.0`, kept exact. */
  function OverFromBalls(balls: int): (overs: real)
    ensures overs == balls as real / 6.0
    ensures overs == 0.0 <==> balls == 0
    ensures balls >= 0 ==> overs >= 0.0
  {
    (balls / 6) as real + (balls % 6) as real / 6.0
  }

  /** The whole part of the overs figure is the number of completed overs and the fractional part,
      the balls of the unfinished over divided by six, stays below one. */
  lemma OversParts(balls: int)
    ensures OverFromBalls(balls).Floor == balls / 6
    ensures OverFromBalls(balls) - (balls / 6) as real == (balls % 6) as real / 6.0 < 1.0
  {
  }

  /** The three phases of a twenty-over innings. */
  datatype Phase = Powerplay | Middle | Death {
    /** The label `phase_from_over` returns. */
    function Label(): string {
      match this
      case Powerplay => "Powerplay (0–5)"
      case Middle => "Middle (6–14)"
      case Death => "Death (15–19)"
    }

    /** Position in the order `["Powerplay (0–5)", "Middle (6–14)", "Death (15–19)"]`. */
    function Rank(): nat {
      match this
      case Powerplay => 0
      case Middle => 1
      case Death => 2
    }
  }

  const PhaseOrder: seq<Phase> := [Powerplay, Middle, Death]

  /** `phase_from_over`. */
  function PhaseFromOver(over: int): Phase {
    if over <= 5 then Powerplay else if over <= 14 then Middle else Death
  }

  /** The phases partition the integers: at most 5 is the powerplay, 6 to 14 the middle overs,
      15 and above the death overs; overs past 19 and negative overs are not rejected. */
  lemma PhasePartition(over: int)
    ensures PhaseFromOver(over) == Powerplay <==> over <= 5
    ensures PhaseFromOver(over) == Middle <==> 6 <= over <= 14
    ensures PhaseFromOver(over) == Death <==> 15 <= over
  {
  }

  /** Later overs never fall in an earlier phase. */
  lemma PhaseMonotone(a: int, b: int)
    requires a <= b
    ensures PhaseFromOver(a).Rank() <= PhaseFromOver(b).Rank()
  {
  }

  /** The labels are distinct, so the phase table's grouping by label is a grouping by phase. */
  lemma PhaseLabelsDistinct(p: Phase, q: Phase)
    ensures p.Label() == q.Label() <==> p == q
  {
    if p != q {
      assert p.Label()[0] != q.Label()[0];
    }
  }

  /** The coarse bowling styles `coarse_type` returns. */
  datatype Style = Pace | Spin | Unknown {
    /** The string `coarse_type` returns. */
    function Name(): string {
      match this
      case Pace => "Pace"
      case Spin => "Spin"
      case Unknown => "Unknown"
    }

    /** The label the pace/spin table shows: "Unknown" is relabelled "Other". */
    function Label(): string {
      match this
      case Pace => "Pace"
      case Spin => "Spin"
      case Unknown => "Other"
    }

    /** Position in the groupby's sorted order of the raw labels "Pace" < "Spin" < "Unknown". */
    function Rank(): nat {
      match this
      case Pace => 0
      case Spin => 1
      case Unknown => 2
    }
  }

  const StyleOrder: seq<Style> := [Pace, Spin, Unknown]

  /** The shown labels are distinct, so relabelling merges no rows. */
  lemma StyleLabelsDistinct(p: Style, q: Style)
    ensures p.Label() == q.Label() <==> p == q
  {
    if p != q {
      assert p.Label()[0] != q.Label()[0];
    }
  }

  /** `PACE_KEYS` and `SPIN_KEYS`. */
  const PaceKeys: seq<string> := ["fast", "medium", "rm", "rf", "lm", "lf", "rmf", "lmf", "rmed", "lmed", "pace"]
  const SpinKeys: seq<string> := ["off break", "offbreak", "ob", "leg break", "legbreak", "lb", "orthodox",
    "sla", "slow left", "chinaman", "left arm unorthodox", "lao", "spin"]

  /** `any(k in txt for k in keys)`. */
  predicate AnyIn(txt: string, keys: seq<string>) {
    keys != [] && (Contains(txt, keys[0]) || AnyIn(txt, keys[1..]))
  }

  /** `re.search(r"(break|orthodox|chinaman|spin)", txt)`. */
  predicate SpinPattern(txt: string) {
    Contains(txt, "break") || Contains(txt, "orthodox") || Contains(txt, "chinaman") || Contains(txt, "spin")
  }

  /** `re.search(r"(fast|medium|rmf|lmf|pace)", txt)`. */
  predicate PacePattern(txt: string) {
    Contains(txt, "fast") || Contains(txt, "medium") || Contains(txt, "rmf") || Contains(txt, "lmf") || Contains(txt, "pace")
  }

  /** The text `coarse_type` searches: both descriptions lower-cased, joined by a space. */
  function StyleText(action: string, bowlerType: string): string {
    Lower(action) + " " + Lower(bowlerType)
  }

  /** `coarse_type`, with its four tests in the order written. */
  function CoarseType(action: string, bowlerType: string): Style {
    StyleOfText(StyleText(action, bowlerType))
  }

  /** The decision of `coarse_type` on the joined text. */
  function StyleOfText(txt: string): Style {
    if AnyIn(txt, SpinKeys) then Spin
    else if AnyIn(txt, PaceKeys) then Pace
    else if SpinPattern(txt) then Spin
    else if PacePattern(txt) then Pace
    else Unknown
  }

  lemma {:induction false} AnyInMember(txt: string, keys: seq<string>, i: int)
    requires 0 <= i < |keys| && Contains(txt, keys[i])
    ensures AnyIn(txt, keys)
    decreases i
  {
    if i > 0 {
      AnyInMember(txt, keys[1..], i - 1);
    }
  }

  /** Every alternative of the pace pattern is itself a pace key, so the pattern can only match
      where the key test has already answered Pace. */
  lemma PacePatternCovered(txt: string)
    requires PacePattern(txt)
    ensures AnyIn(txt, PaceKeys)
  {
    if Contains(txt, "fast") { AnyInMember(txt, PaceKeys, 0); }
    else if Contains(txt, "medium") { AnyInMember(txt, PaceKeys, 1); }
    else if Contains(txt, "rmf") { AnyInMember(txt, PaceKeys, 6); }
    else if Contains(txt, "lmf") { AnyInMember(txt, PaceKeys, 7); }
    else { AnyInMember(txt, PaceKeys, 10); }
  }

  /** Of the spin pattern's alternatives only "break" is not a spin key. */
  lemma SpinPatternBeyondKeys(txt: string)
    requires SpinPattern(txt) && !AnyIn(txt, SpinKeys)
    ensures Contains(txt, "break")
  {
    if Contains(txt, "orthodox") { AnyInMember(txt, SpinKeys, 6); }
    else if Contains(txt, "chinaman") { AnyInMember(txt, SpinKeys, 9); }
    else if Contains(txt, "spin") { AnyInMember(txt, SpinKeys, 12); }
  }

  /** What `coarse_type` decides, once its dead branch is removed: any spin key wins, then any
      pace key; the spin fallback fires only on "break", and the pace fallback never fires. */
  lemma CoarseTypeDecision(action: string, bowlerType: string)
    ensures var txt := StyleText(action, bowlerType);
      CoarseType(action, bowlerType)
        == if AnyIn(txt, SpinKeys) then Spin
           else if AnyIn(txt, PaceKeys) then Pace
           else if Contains(txt, "break") then Spin
           else Unknown
  {
    var txt := StyleText(action, bowlerType);
    if !AnyIn(txt, SpinKeys) && !AnyIn(txt, PaceKeys) {
      if PacePattern(txt) {
        PacePatternCovered(txt);
      }
      if SpinPattern(txt) {
        SpinPatternBeyondKeys(txt);
      }
    }
  }

  /** The pace fallback `re.search(r"(fast|medium|rmf|lmf|pace)", txt)` is dead code. */
  lemma PaceFallbackUnreachable(txt: string)
    ensures !AnyIn(txt, PaceKeys) ==> !PacePattern(txt)
  {
    if PacePattern(txt) {
      PacePatternCovered(txt);
    }
  }

  /** The pace key "rm" occurs inside the word "arm", so every description that mentions an arm
      and holds no spin key is Pace, e.g. "Right arm googly". */
  lemma ArmReadsAsPace(action: string, bowlerType: string)
    requires Contains(StyleText(action, bowlerType), "arm")
    requires !AnyIn(StyleText(action, bowlerType), SpinKeys)
    ensures CoarseType(action, bowlerType) == Pace
  {
    var txt := StyleText(action, bowlerType);
    assert "arm" == "a" + "rm";
    ContainsSuffixOf(txt, "a", "rm");
    AnyInMember(txt, PaceKeys, 2);
  }

  /** Two empty descriptions give the text " ", which is too short to hold any key. */
  lemma NoDescriptionIsUnknown()
    ensures CoarseType("", "") == Unknown
  {
    assert StyleText("", "") == " ";
    ShortTextIsUnknown(" ");
  }

  lemma ShortTextIsUnknown(txt: string)
    requires |txt| <= 1
    ensures StyleOfText(txt) == Unknown
  {
    NoLongKeyIn(txt, SpinKeys);
    NoLongKeyIn(txt, PaceKeys);
    NoLongKeyIn(txt, ["break", "orthodox", "chinaman", "spin"]);
    NoLongKeyIn(txt, ["fast", "medium", "rmf", "lmf", "pace"]);
    assert !SpinPattern(txt) by {
      SpinPatternAsKeys(txt);
    }
    assert !PacePattern(txt) by {
      PacePatternAsKeys(txt);
    }
  }

  lemma SpinPatternAsKeys(txt: string)
    ensures SpinPattern(txt) ==> AnyIn(txt, ["break", "orthodox", "chinaman", "spin"])
  {
    var ks := ["break", "orthodox", "chinaman", "spin"];
    if Contains(txt, "break") { AnyInMember(txt, ks, 0); }
    else if Contains(txt, "orthodox") { AnyInMember(txt, ks, 1); }
    else if Contains(txt, "chinaman") { AnyInMember(txt, ks, 2); }
    else if Contains(txt, "spin") { AnyInMember(txt, ks, 3); }
  }

  lemma PacePatternAsKeys(txt: string)
    ensures PacePattern(txt) ==> AnyIn(txt, ["fast", "medium", "rmf", "lmf", "pace"])
  {
    var ks := ["fast", "medium", "rmf", "lmf", "pace"];
    if Contains(txt, "fast") { AnyInMember(txt, ks, 0); }
    else if Contains(txt, "medium") { AnyInMember(txt, ks, 1); }
    else if Contains(txt, "rmf") { AnyInMember(txt, ks, 2); }
    else if Contains(txt, "lmf") { AnyInMember(txt, ks, 3); }
    else if Contains(txt, "pace") { AnyInMember(txt, ks, 4); }
  }

  /** No key longer than the text occurs in it. */
  lemma {:induction false} NoLongKeyIn(txt: string, keys: seq<string>)
    requires forall i :: 0 <= i < |keys| ==> |keys[i]| > |txt|
    ensures !AnyIn(txt, keys)
    decreases |keys|
  {
    if keys != [] {
      if Contains(txt, keys[0]) {
        ContainsNoLonger(txt, keys[0]);
      }
      NoLongKeyIn(txt, keys[1..]);
    }
  }

  /** A spin keyword decides, whatever pace words stand beside it. */
  lemma SpinKeyWins(action: string, bowlerType: string, i: int)
    requires 0 <= i < |SpinKeys| && Contains(StyleText(action, bowlerType), SpinKeys[i])
    ensures CoarseType(action, bowlerType) == Spin
  {
    AnyInMember(StyleText(action, bowlerType), SpinKeys, i);
  }
}
