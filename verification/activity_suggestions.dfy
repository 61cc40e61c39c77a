/**
 * The free-period activity suggestions
 * (src/components/dashboard/ActivitySuggestions.tsx): a fixed catalogue
 * filtered by the leading number of each activity's duration, and the two
 * lookups that pick an icon and a colour class.
 */
module ActivitySuggestions {
  import opened Wrappers
  import Decimal

  datatype Difficulty = Beginner | Intermediate | Advanced

  datatype Activity = Activity(
    id: string, title: string, description: string, duration: string,
    category: string, icon: string, difficulty: Difficulty)

  /** The icon components the widget can show. */
  datatype Icon = Code | BookOpen | Palette | Calculator | Lightbulb

  function DifficultyName(d: Difficulty): string
  {
    match d
    case Beginner => "beginner"
    case Intermediate => "intermediate"
    case Advanced => "advanced"
  }

  /** The catalogue the suggestions are drawn from, in display order. */
  const Catalogue: seq<Activity> := [
    Activity("1", "Python Programming Challenge",
      "Complete a coding challenge to improve your algorithm skills",
      "30 min", "Programming", "code", Intermediate),
    Activity("2", "Career Planning Worksheet",
      "Explore different career paths in your field of interest",
      "20 min", "Career Development", "lightbulb", Beginner),
    Activity("3", "Digital Art Tutorial",
      "Learn new digital design techniques and tools",
      "40 min", "Creative Arts", "art", Beginner)
  ]

  /**
   * The filter's test: `parseInt(activity.duration) <= freePeriodDuration`.
   * A duration without a leading number reads as `NaN`, and `NaN <= x` is false.
   */
  predicate FitsIn(a: Activity, freePeriod: int)
    ensures Decimal.ParseInt(a.duration).None? ==> !FitsIn(a, freePeriod)
    ensures Decimal.ParseInt(a.duration) == Some(freePeriod) ==> FitsIn(a, freePeriod)
  {
    var minutes := Decimal.ParseInt(a.duration);
    minutes.Some? && minutes.value <= freePeriod
  }

  /** `Array.prototype.filter`: the elements that satisfy `keep`, in their original order. */
  function Filter<T>(xs: seq<T>, keep: T -> bool): (kept: seq<T>)
    ensures |kept| <= |xs|
  {
    if xs == [] then [] else (if keep(xs[0]) then [xs[0]] else []) + Filter(xs[1..], keep)
  }

  /** The filter's callback, `activity => parseInt(activity.duration) <= freePeriodDuration`. */
  function FitsFor(freePeriod: int): Activity -> bool
  {
    a => FitsIn(a, freePeriod)
  }

  /**
   * `activities.filter(...)` with the duration test: exactly the activities
   * that fit, in their original order.
   */
  function FilterByDuration(activities: seq<Activity>, freePeriod: int): (kept: seq<Activity>)
    ensures forall a :: a in kept <==> a in activities && FitsIn(a, freePeriod)
    ensures IsSubsequence(kept, activities)
    ensures forall a :: multiset(kept)[a] == if FitsIn(a, freePeriod) then multiset(activities)[a] else 0
  {
    FilterExact(activities, FitsFor(freePeriod));
    FilterCounts(activities, FitsFor(freePeriod));
    FilterIsSubsequence(activities, FitsFor(freePeriod));
    Filter(activities, FitsFor(freePeriod))
  }

  /**
   * `suggestedActivities`: the catalogue entries that fit in the free period.
   * Nothing fits below 20 minutes, the career worksheet from 20, the
   * programming challenge as well from 30, everything from 40. The student's
   * interests are a parameter of the component that the filter never reads.
   */
  function SuggestedActivities(studentInterests: seq<string>, freePeriod: int): (suggested: seq<Activity>)
    ensures freePeriod < 20 ==> suggested == []
    ensures 20 <= freePeriod < 30 ==> suggested == [Catalogue[1]]
    ensures 30 <= freePeriod < 40 ==> suggested == [Catalogue[0], Catalogue[1]]
    ensures 40 <= freePeriod ==> suggested == Catalogue
  {
    CatalogueFits(freePeriod);
    FilterOfNestedThree(Catalogue, FitsFor(freePeriod));
    FilterByDuration(Catalogue, freePeriod)
  }

  /** `s` is `t` with some elements left out, the rest in their original order. */
  predicate IsSubsequence<T(==)>(s: seq<T>, t: seq<T>)
    decreases |t|
  {
    if t == [] then s == []
    else (s != [] && s[0] == t[0] && IsSubsequence(s[1..], t[1..])) || IsSubsequence(s, t[1..])
  }

  /** A filter keeps exactly the elements that satisfy its test. */
  lemma {:induction false} FilterMembership<T>(xs: seq<T>, keep: T -> bool, x: T)
    ensures x in Filter(xs, keep) <==> x in xs && keep(x)
  {
    if xs != [] {
      FilterMembership(xs[1..], keep, x);
      assert xs == [xs[0]] + xs[1..];
    }
  }

  /** `FilterMembership` for every element at once. */
  lemma FilterExact<T>(xs: seq<T>, keep: T -> bool)
    ensures forall x :: x in Filter(xs, keep) <==> x in xs && keep(x)
  {
    forall x {
      FilterMembership(xs, keep, x);
    }
  }

  /** A filter keeps every copy of an element that passes its test, and none of the others. */
  lemma {:induction false} FilterCount<T>(xs: seq<T>, keep: T -> bool, x: T)
    ensures multiset(Filter(xs, keep))[x] == if keep(x) then multiset(xs)[x] else 0
  {
    if xs != [] {
      FilterCount(xs[1..], keep, x);
      assert xs == [xs[0]] + xs[1..];
      assert multiset(xs) == multiset([xs[0]]) + multiset(xs[1..]);
      var head: seq<T> := if keep(xs[0]) then [xs[0]] else [];
      assert multiset(Filter(xs, keep)) == multiset(head) + multiset(Filter(xs[1..], keep));
    }
  }

  /** `FilterCount` for every element at once. */
  lemma FilterCounts<T>(xs: seq<T>, keep: T -> bool)
    ensures forall x :: multiset(Filter(xs, keep))[x] == if keep(x) then multiset(xs)[x] else 0
  {
    forall x {
      FilterCount(xs, keep, x);
    }
  }

  /** A filter keeps the original order. */
  lemma {:induction false} FilterIsSubsequence<T>(xs: seq<T>, keep: T -> bool)
    ensures IsSubsequence(Filter(xs, keep), xs)
  {
    if xs != [] {
      FilterIsSubsequence(xs[1..], keep);
      var kept, rest := Filter(xs, keep), Filter(xs[1..], keep);
      if keep(xs[0]) {
        assert kept == [xs[0]] + rest && kept[1..] == rest;
      } else {
        assert kept == [] + rest == rest;
      }
    }
  }

  /** Filtering by a stricter test is filtering again what a looser test kept. */
  lemma {:induction false} FilterOfFilter<T>(xs: seq<T>, stricter: T -> bool, looser: T -> bool)
    requires forall x :: stricter(x) ==> looser(x)
    ensures Filter(xs, stricter) == Filter(Filter(xs, looser), stricter)
  {
    if xs != [] {
      FilterOfFilter(xs[1..], stricter, looser);
      var loose, looseRest := Filter(xs, looser), Filter(xs[1..], looser);
      if looser(xs[0]) {
        assert loose == [xs[0]] + looseRest && loose[0] == xs[0] && loose[1..] == looseRest;
      } else {
        assert loose == [] + looseRest == looseRest;
        assert Filter(xs, stricter) == [] + Filter(xs[1..], stricter);
      }
    }
  }

  /**
   * A longer free period never loses a suggestion: the suggestions for the
   * shorter period are the longer period's suggestions filtered again.
   */
  lemma SuggestionsMonotone(activities: seq<Activity>, shorter: int, longer: int)
    requires shorter <= longer
    ensures FilterByDuration(activities, shorter)
      == FilterByDuration(FilterByDuration(activities, longer), shorter)
  {
    FilterOfFilter(activities, FitsFor(shorter), FitsFor(longer));
  }

  /** `parseInt` reads the catalogue durations as 30, 20 and 40 minutes. */
  lemma CatalogueDurations()
    ensures Decimal.ParseInt(Catalogue[0].duration) == Some(30)
    ensures Decimal.ParseInt(Catalogue[1].duration) == Some(20)
    ensures Decimal.ParseInt(Catalogue[2].duration) == Some(40)
  {
    assert Decimal.FromNat(30) == "30" && Decimal.FromNat(20) == "20" && Decimal.FromNat(40) == "40";
    assert "30 min" == Decimal.FromNat(30) + " min";
    assert "20 min" == Decimal.FromNat(20) + " min";
    assert "40 min" == Decimal.FromNat(40) + " min";
    Decimal.ParseIntOfNumeral(30, " min");
    Decimal.ParseIntOfNumeral(20, " min");
    Decimal.ParseIntOfNumeral(40, " min");
  }

  /** The filter's test on the catalogue: the activities fit from 30, 20 and 40 minutes on. */
  lemma CatalogueFits(freePeriod: int)
    ensures FitsFor(freePeriod)(Catalogue[0]) <==> 30 <= freePeriod
    ensures FitsFor(freePeriod)(Catalogue[1]) <==> 20 <= freePeriod
    ensures FitsFor(freePeriod)(Catalogue[2]) <==> 40 <= freePeriod
  {
    CatalogueDurations();
  }

  /**
   * A filter over three elements whose tests are nested (whatever passes
   * the third passes the first, whatever passes the first passes the second).
   */
  lemma FilterOfNestedThree<T>(xs: seq<T>, keep: T -> bool)
    requires |xs| == 3
    requires keep(xs[2]) ==> keep(xs[0])
    requires keep(xs[0]) ==> keep(xs[1])
    ensures !keep(xs[1]) ==> Filter(xs, keep) == []
    ensures keep(xs[1]) && !keep(xs[0]) ==> Filter(xs, keep) == [xs[1]]
    ensures keep(xs[0]) && !keep(xs[2]) ==> Filter(xs, keep) == [xs[0], xs[1]]
    ensures keep(xs[2]) ==> Filter(xs, keep) == xs
  {
    FilterOfThree(xs, keep);
    if keep(xs[2]) {
      assert xs == [xs[0]] + [xs[1]] + [xs[2]];
    } else if keep(xs[0]) {
      assert [xs[0]] + [xs[1]] + [] == [xs[0], xs[1]];
    }
  }

  /** A filter over three elements, spelled out. */
  lemma FilterOfThree<T>(xs: seq<T>, keep: T -> bool)
    requires |xs| == 3
    ensures Filter(xs, keep)
      == (if keep(xs[0]) then [xs[0]] else [])
       + (if keep(xs[1]) then [xs[1]] else [])
       + (if keep(xs[2]) then [xs[2]] else [])
  {
    var k0 := if keep(xs[0]) then [xs[0]] else [];
    var k1 := if keep(xs[1]) then [xs[1]] else [];
    var k2 := if keep(xs[2]) then [xs[2]] else [];
    assert xs[1..][1..][1..] == [];
    assert Filter(xs[1..][1..], keep) == k2 + [] by { assert xs[1..][1..] == [xs[2]]; }
    assert Filter(xs[1..], keep) == k1 + (k2 + []) by { assert xs[1..][0] == xs[1]; }
    assert Filter(xs, keep) == k0 + (k1 + (k2 + []));
  }

  /** The icon names the lookup table defines itself. */
  const IconNames: set<string> := {"code", "book", "art", "math", "lightbulb"}

  /**
   * The names every plain JavaScript object inherits from `Object.prototype`;
   * indexing an object literal with one of them yields a (truthy) function or
   * object instead of `undefined`.
   */
  const InheritedNames: set<string> := {
    "constructor", "__proto__", "hasOwnProperty", "isPrototypeOf",
    "propertyIsEnumerable", "toLocaleString", "toString", "valueOf",
    "__defineGetter__", "__defineSetter__", "__lookupGetter__", "__lookupSetter__"}

  function OwnIcon(name: string): Icon
    requires name in IconNames
  {
    if name == "code" then Code
    else if name == "book" then BookOpen
    else if name == "art" then Palette
    else if name == "math" then Calculator
    else Lightbulb
  }

  /** What `icons[iconName] || Lightbulb` yields: a component, or an inherited member of `Object.prototype`. */
  datatype IconLookup = Component(icon: Icon) | InheritedMember(name: string)

  /** `getIcon` as written: an indexed object-literal lookup with a falsy fallback. */
  function GetIconAsWritten(name: string): (r: IconLookup)
    ensures r.InheritedMember? <==> name in InheritedNames
  {
    if name in IconNames then Component(OwnIcon(name))
    else if name in InheritedNames then InheritedMember(name)
    else Component(Lightbulb)
  }

  /** The fallback is missed: `getIcon("toString")` is `Object.prototype.toString`, not `Lightbulb`. */
  lemma GetIconAsWrittenMissesFallback()
    ensures GetIconAsWritten("toString") != Component(Lightbulb)
    ensures "toString" !in IconNames
  {
  }

  /** `getIcon` as intended: the table's own entries, and `Lightbulb` for every other name. */
  function GetIcon(name: string): (icon: Icon)
    ensures name !in IconNames ==> icon == Lightbulb
    ensures icon == Lightbulb <==> name !in {"code", "book", "art", "math"}
    ensures name !in InheritedNames ==> GetIconAsWritten(name) == Component(icon)
  {
    if name in IconNames then OwnIcon(name) else Lightbulb
  }

  /** The catalogue's icon names are own entries, so the shipped widget shows the intended icons. */
  lemma CatalogueIconsAgree(i: nat)
    requires i < |Catalogue|
    ensures GetIconAsWritten(Catalogue[i].icon) == Component(GetIcon(Catalogue[i].icon))
    ensures Catalogue[i].icon in IconNames
  {
  }

  const MutedColor := "bg-muted text-muted-foreground"

  /** `getDifficultyColor`: a colour class per difficulty, muted for anything else. */
  function GetDifficultyColor(difficulty: string): (color: string)
    ensures color == MutedColor <==> difficulty !in {"beginner", "intermediate", "advanced"}
  {
    match difficulty
    case "beginner" => "bg-success/10 text-success"
    case "intermediate" => "bg-warning/10 text-warning"
    case "advanced" => "bg-destructive/10 text-destructive"
    case _ => MutedColor
  }

  /** Each difficulty has its own colour, and none of them is the default. */
  lemma DifficultyColorsDistinct(d1: Difficulty, d2: Difficulty)
    ensures GetDifficultyColor(DifficultyName(d1)) != MutedColor
    ensures d1 != d2 ==> GetDifficultyColor(DifficultyName(d1)) != GetDifficultyColor(DifficultyName(d2))
  {
  }
}
