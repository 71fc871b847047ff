/** The shared button: its class list, built from the variant, the size,
    the full-width flag and any extra class name, with the empty entries
    dropped; and the optional icons around the label. */
module Button {
  import opened Wrappers
  import opened Strings

  datatype Variant = Primary | Secondary | TextVariant
  datatype Size = Small | Medium | Large

  function VariantName(v: Variant): (n: string)
    ensures |n| > 0 && ' ' !in n
  {
    match v
    case Primary => "primary"
    case Secondary => "secondary"
    case TextVariant => "text"
  }

  function SizeName(s: Size): (n: string)
    ensures |n| > 0 && ' ' !in n
  {
    match s
    case Small => "small"
    case Medium => "medium"
    case Large => "large"
  }

  /** The props as given; `None` is a prop left out, which takes its default. */
  datatype ButtonProps = ButtonProps(variant: Option<Variant>, size: Option<Size>,
                                     fullWidth: Option<bool>, className: Option<string>)

  const DEFAULT_VARIANT: Variant := Primary
  const DEFAULT_SIZE: Size := Medium
  const FULL_WIDTH_CLASS: string := "button--full-width"

  /** The class list before the empty entries are dropped. */
  function ClassEntries(p: ButtonProps): seq<string> {
    [ "button",
      "button--" + VariantName(p.variant.GetOr(DEFAULT_VARIANT)),
      "button--" + SizeName(p.size.GetOr(DEFAULT_SIZE)),
      if p.fullWidth.GetOr(false) then FULL_WIDTH_CLASS else "",
      p.className.GetOr("") ]
  }

  /** `[...].filter(Boolean).join(" ")` */
  function ClassString(p: ButtonProps): string {
    Join(NonEmpty(ClassEntries(p)), " ")
  }

  /** The classes that end up on the element: the base, the variant and the
      size always, the full-width class only when asked for, and the extra
      name only when it is not empty. */
  function ExpectedClasses(p: ButtonProps): (cs: seq<string>)
    ensures |cs| >= 3
  {
    ["button", "button--" + VariantName(p.variant.GetOr(DEFAULT_VARIANT)),
     "button--" + SizeName(p.size.GetOr(DEFAULT_SIZE))]
    + (if p.fullWidth.GetOr(false) then [FULL_WIDTH_CLASS] else [])
    + Kept(p.className.GetOr(""))
  }

  /** An entry kept by the filter, or nothing. */
  function Kept(x: string): seq<string> {
    if x == "" then [] else [x]
  }

  lemma {:induction false} NonEmptyAppend(xs: seq<string>, ys: seq<string>)
    ensures NonEmpty(xs + ys) == NonEmpty(xs) + NonEmpty(ys)
    decreases |xs|
  {
    if |xs| == 0 {
      assert xs + ys == ys;
    } else {
      assert (xs + ys)[1..] == xs[1..] + ys;
      NonEmptyAppend(xs[1..], ys);
    }
  }

  lemma NonEmptySingle(x: string)
    ensures NonEmpty([x]) == Kept(x)
  {
    assert [x][1..] == [];
  }

  /** Five entries of which the first three are never empty. */
  lemma FilterFive(a: string, b: string, c: string, d: string, e: string)
    requires a != "" && b != "" && c != ""
    ensures NonEmpty([a, b, c] + [d] + [e]) == [a, b, c] + Kept(d) + Kept(e)
  {
    NonEmptyAppend([a, b, c] + [d], [e]);
    NonEmptyAppend([a, b, c], [d]);
    NonEmptyAllNonEmpty([a, b, c]);
    NonEmptySingle(d);
    NonEmptySingle(e);
  }

  lemma ClassNameHasNoSpace(n: string)
    requires ' ' !in n
    ensures ' ' !in "button--" + n
  {
    var c := "button--" + n;
    forall i | 0 <= i < |c| ensures c[i] != ' ' {
      if i >= 8 {
        assert c[i] == n[i - 8];
      }
    }
  }

  /** Dropping the empty entries leaves exactly the expected classes. */
  lemma EntriesFiltered(p: ButtonProps)
    ensures NonEmpty(ClassEntries(p)) == ExpectedClasses(p)
  {
    var e := ClassEntries(p);
    assert e[1] != "" && e[2] != "" by {
      assert |e[1]| > 0 && |e[2]| > 0;
    }
    FilterFive(e[0], e[1], e[2], e[3], e[4]);
    assert e == [e[0], e[1], e[2]] + [e[3]] + [e[4]];
  }

  /** With no blank inside the extra name, splitting the class string at
      spaces gives the expected classes back, so the string begins with the
      base class and no entry yields an empty class. */
  lemma ClassStringTokens(p: ButtonProps)
    requires ' ' !in p.className.GetOr("")
    ensures Split(ClassString(p), ' ') == ExpectedClasses(p)
    ensures StartsWith(ClassString(p), "button")
  {
    EntriesFiltered(p);
    var cs := ExpectedClasses(p);
    ClassNameHasNoSpace(VariantName(p.variant.GetOr(DEFAULT_VARIANT)));
    ClassNameHasNoSpace(SizeName(p.size.GetOr(DEFAULT_SIZE)));
    assert ' ' !in FULL_WIDTH_CLASS;
    assert forall i :: 0 <= i < |cs| ==> ' ' !in cs[i];
    SplitJoin(cs, ' ');
    JoinStartsWithFirst(cs, " ");
  }

  lemma JoinStartsWithFirst(xs: seq<string>, sep: string)
    requires |xs| >= 1
    ensures StartsWith(Join(xs, sep), xs[0])
  {
    if |xs| > 1 {
      var j := Join(xs, sep);
      assert j == xs[0] + (sep + Join(xs[1..], sep));
      assert j[..|xs[0]|] == xs[0];
    }
  }

  /** With every prop left out, the button is a primary medium one. */
  lemma DefaultClasses()
    ensures ExpectedClasses(ButtonProps(None, None, None, None)) == ["button", "button--primary", "button--medium"]
  {
    assert "button--" + "primary" == "button--primary";
    assert "button--" + "medium" == "button--medium";
  }

  /** The parts inside the element, in order. */
  datatype Part = StartIcon | LabelText | EndIcon

  function Parts(hasStartIcon: bool, hasEndIcon: bool): (ps: seq<Part>)
    ensures LabelText in ps
    ensures StartIcon in ps <==> hasStartIcon
    ensures EndIcon in ps <==> hasEndIcon
    ensures hasStartIcon ==> ps[0] == StartIcon
    ensures hasEndIcon ==> ps[|ps| - 1] == EndIcon
  {
    (if hasStartIcon then [StartIcon] else []) + [LabelText] + (if hasEndIcon then [EndIcon] else [])
  }
}
