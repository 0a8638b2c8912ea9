/** The `cn` class-name builder: block/element names with modifiers, in the
    block__element_modifier style. */
module ClassNames {
  import opened Wrappers

  /** A modifier's value: a boolean, or any other value by its string rendering. */
  datatype ModValue = Flag(on: bool) | Text(rendered: string)

  /** One `[mod, value]` entry of the modifier object, in entry order. */
  datatype Mod = Mod(name: string, value: ModValue)

  /** The element's class name. */
  function ElementClass(block: string, element: string): string
  {
    block + "__" + element
  }

  /** The token one modifier adds: the element class, the modifier name, and the
      value only when it is not a boolean. */
  function ModToken(className: string, m: Mod): string
  {
    " " + className + "_" + m.name +
    (match m.value
     case Flag(_) => ""
     case Text(v) => "_" + v)
  }

  /** The `reduce` over the modifier entries, starting from `acc`. */
  function Reduce(acc: string, className: string, mods: seq<Mod>): string
    decreases |mods|
  {
    if mods == [] then acc else Reduce(acc + ModToken(className, mods[0]), className, mods[1..])
  }

  /** `cn(block)(element, mods)`; `None` stands for a missing modifier object. */
  function Cn(block: string, element: string, mods: Option<seq<Mod>>): string
  {
    var className := ElementClass(block, element);
    match mods
    case None => className
    case Some(ms) => Reduce(className, className, ms)
  }

  /** Reference definition: all tokens, concatenated in entry order. */
  function Tokens(className: string, mods: seq<Mod>): string
    decreases |mods|
  {
    if mods == [] then "" else ModToken(className, mods[0]) + Tokens(className, mods[1..])
  }

  /** The fold appends exactly the tokens to its starting value. */
  lemma {:induction false} ReduceAppendsTokens(acc: string, className: string, mods: seq<Mod>)
    ensures Reduce(acc, className, mods) == acc + Tokens(className, mods)
    decreases |mods|
  {
    if mods != [] {
      ReduceAppendsTokens(acc + ModToken(className, mods[0]), className, mods[1..]);
    }
  }

  /** The class string is the element class followed by one token per modifier;
      without modifiers, or with none listed, it is `block__element`. */
  lemma CnIsElementClassAndTokens(block: string, element: string, mods: seq<Mod>)
    ensures Cn(block, element, Some(mods)) == block + "__" + element + Tokens(block + "__" + element, mods)
    ensures Cn(block, element, None) == block + "__" + element
    ensures Cn(block, element, Some([])) == block + "__" + element
  {
    ReduceAppendsTokens(ElementClass(block, element), ElementClass(block, element), mods);
  }

  /** A modifier added after the others adds its token at the end. */
  lemma {:induction false} TokensSnoc(className: string, mods: seq<Mod>, m: Mod)
    ensures Tokens(className, mods + [m]) == Tokens(className, mods) + ModToken(className, m)
    decreases |mods|
  {
    if mods != [] {
      assert (mods + [m])[1..] == mods[1..] + [m];
      TokensSnoc(className, mods[1..], m);
    } else {
      assert Tokens(className, [m]) == ModToken(className, m) + Tokens(className, []);
    }
  }

  /** Each modifier, in entry order, appends one token; a boolean modifier, even
      `false`, contributes `_name` and no value. */
  lemma CnAddsOneTokenPerMod(block: string, element: string, mods: seq<Mod>, m: Mod)
    ensures Cn(block, element, Some(mods + [m]))
            == Cn(block, element, Some(mods)) + ModToken(ElementClass(block, element), m)
    ensures m.value.Flag? ==>
              Cn(block, element, Some(mods + [m]))
              == Cn(block, element, Some(mods)) + (" " + ElementClass(block, element) + "_" + m.name)
    ensures m.value.Text? ==>
              Cn(block, element, Some(mods + [m]))
              == Cn(block, element, Some(mods))
                 + (" " + ElementClass(block, element) + "_" + m.name + ("_" + m.value.rendered))
  {
    var className := ElementClass(block, element);
    CnIsElementClassAndTokens(block, element, mods + [m]);
    CnIsElementClassAndTokens(block, element, mods);
    TokensSnoc(className, mods, m);
    var before := Cn(block, element, Some(mods));
    assert Cn(block, element, Some(mods + [m])) == before + ModToken(className, m);
    if m.value.Flag? {
      assert " " + className + "_" + m.name + "" == " " + className + "_" + m.name;
    }
  }

  /** The number of occurrences of `c` in `s`. */
  function Count(c: char, s: string): nat
    decreases |s|
  {
    if s == [] then 0 else (if s[0] == c then 1 else 0) + Count(c, s[1..])
  }

  /** Occurrences in a concatenation add up. */
  lemma {:induction false} CountConcat(c: char, a: string, b: string)
    ensures Count(c, a + b) == Count(c, a) + Count(c, b)
    decreases |a|
  {
    if a != [] {
      assert (a + b)[1..] == a[1..] + b;
      CountConcat(c, a[1..], b);
    } else {
      assert a + b == b;
    }
  }

  /** A character that does not occur is counted zero times. */
  lemma {:induction false} CountAbsent(c: char, s: string)
    requires c !in s
    ensures Count(c, s) == 0
    decreases |s|
  {
    if s != [] {
      assert s == [s[0]] + s[1..];
      CountAbsent(c, s[1..]);
    }
  }

  /** No space in a name or a rendered value. */
  predicate SpaceFree(m: Mod)
  {
    ' ' !in m.name && (m.value.Text? ==> ' ' !in m.value.rendered)
  }

  /** A modifier token holds exactly its leading space when no part of it has a space. */
  lemma ModTokenHasOneSpace(className: string, m: Mod)
    requires ' ' !in className && SpaceFree(m)
    ensures Count(' ', ModToken(className, m)) == 1
  {
    var tail := match m.value case Flag(_) => "" case Text(v) => "_" + v;
    CountAbsent(' ', className);
    CountAbsent(' ', m.name);
    CountAbsent(' ', tail);
    CountAbsent(' ', "_");
    CountConcat(' ', " ", className);
    CountConcat(' ', " " + className, "_");
    CountConcat(' ', " " + className + "_", m.name);
    CountConcat(' ', " " + className + "_" + m.name, tail);
  }

  /** The token list holds one space per modifier when no part of it has a space. */
  lemma {:induction false} TokensSpaces(className: string, mods: seq<Mod>)
    requires ' ' !in className
    requires forall i :: 0 <= i < |mods| ==> SpaceFree(mods[i])
    ensures Count(' ', Tokens(className, mods)) == |mods|
    decreases |mods|
  {
    if mods != [] {
      ModTokenHasOneSpace(className, mods[0]);
      TokensSpaces(className, mods[1..]);
      CountConcat(' ', ModToken(className, mods[0]), Tokens(className, mods[1..]));
    }
  }

  /** When no name or value holds a space, the class string holds exactly one
      space per modifier, so it splits into one class per modifier plus the
      element class. */
  lemma CnSpaceCount(block: string, element: string, mods: seq<Mod>)
    requires ' ' !in block && ' ' !in element
    requires forall i :: 0 <= i < |mods| ==> SpaceFree(mods[i])
    ensures Count(' ', Cn(block, element, Some(mods))) == |mods|
  {
    var className := ElementClass(block, element);
    CnIsElementClassAndTokens(block, element, mods);
    assert ' ' !in className;
    CountAbsent(' ', className);
    TokensSpaces(className, mods);
    CountConcat(' ', className, Tokens(className, mods));
  }

  /** The class of a consent-popup button carrying one boolean modifier, such as
      `decline` or `accept`. */
  lemma ConsentPopupButtonClass(name: string)
    ensures Cn("consent-popup", "button", Some([Mod(name, Flag(true))]))
            == "consent-popup__button" + (" consent-popup__button_" + name)
  {
    var className := ElementClass("consent-popup", "button");
    assert className == "consent-popup__button";
    var m := Mod(name, Flag(true));
    CnAddsOneTokenPerMod("consent-popup", "button", [], m);
    CnIsElementClassAndTokens("consent-popup", "button", []);
    assert [] + [m] == [m];
    assert " " + className + "_" == " consent-popup__button_";
  }
}
