/**
 * The Category document and its save hook: when `color` is missing or
 * blank at save time, it becomes '#' followed by the hexadecimal digits of
 * a random draw from 0 .. 16777258.
 */
module CategorySchema {
  import opened Wrappers
  import opened Documents
  import Numerals

  datatype Category = Category(
    name: string,
    icon: Option<string>,
    color: Option<string>,
    image: string,
    products: seq<Id>)

  /** The fields a new category is given; any of them may be left out. */
  datatype CategoryInput = CategoryInput(
    name: Option<string>,
    icon: Option<string>,
    color: Option<string>,
    image: Option<string>,
    products: Option<seq<Id>>)

  /** The document built from `input`: `image` defaults to '' and `products` to []. */
  function Construct(input: CategoryInput): (c: Category)
    ensures input.image.None? ==> c.image == ""
    ensures input.products.None? ==> c.products == []
    ensures input.image.Some? ==> c.image == input.image.value
    ensures c.icon == input.icon && c.color == input.color
  {
    Category(
      input.name.GetOr(""),
      input.icon,
      input.color,
      input.image.GetOr(""),
      input.products.GetOr([]))
  }

  /** What saving a category checks: only that `name` is present. */
  predicate Valid(c: Category) {
    RequiredString(c.name)
  }

  lemma ConstructValid(input: CategoryInput)
    ensures Valid(Construct(input)) <==> input.name.Some? && input.name.value != ""
  {
  }

  /** Math.random() * ColorRange, floored, is a draw from 0 .. ColorRange - 1. */
  const ColorRange: nat := 16777259

  /** The characters String.prototype.trim removes: white space and line terminators. */
  predicate IsJsWhitespace(c: char) {
    c == '\t' || c == '\n' || c == '\U{000B}' || c == '\U{000C}' || c == '\r' || c == ' '
    || c == '\U{00A0}' || c == '\U{1680}' || ('\U{2000}' <= c <= '\U{200A}')
    || c == '\U{2028}' || c == '\U{2029}' || c == '\U{202F}' || c == '\U{205F}'
    || c == '\U{3000}' || c == '\U{FEFF}'
  }

  /** `s.trim() === ''`. */
  predicate IsBlank(s: string) {
    forall i :: 0 <= i < |s| ==> IsJsWhitespace(s[i])
  }

  /** `!this.color || this.color.trim() === ''`: the empty string is falsy and blank. */
  predicate MissingOrBlank(color: Option<string>) {
    color.None? || IsBlank(color.value)
  }

  /** `'#' + draw.toString(16)`. */
  function GeneratedColor(draw: nat): string
    requires draw < ColorRange
  {
    "#" + Numerals.ToString(draw, 16)
  }

  /** A generated colour is '#' and then 1 to 7 lower-case hex digits that read back as the draw;
      it is never blank. */
  lemma GeneratedColorShape(draw: nat)
    requires draw < ColorRange
    ensures var s := GeneratedColor(draw);
      && s[0] == '#'
      && 2 <= |s| <= 8
      && (forall i :: 1 <= i < |s| ==> Numerals.IsDigit(s[i], 16))
      && Numerals.Parse(s[1..], 16) == draw
      && !IsBlank(s)
  {
    var s := GeneratedColor(draw);
    assert Numerals.Pow(16, 7) == 268435456;
    Numerals.ToStringLength(draw, 16, 7);
    Numerals.ParseToString(draw, 16);
    assert s[1..] == Numerals.ToString(draw, 16);
    assert !IsJsWhitespace(s[0]);
  }

  /** The range is wider than 0xFFFFFF + 1, so the top draws give seven digits, and small draws
      give fewer than six, since the digits are not padded. */
  lemma GeneratedColorExamples()
    ensures GeneratedColor(16777258) == "#100002a"
    ensures GeneratedColor(255) == "#ff"
    ensures GeneratedColor(0) == "#0"
  {
    assert Numerals.ToString(1048578, 16) == "100002";
    assert Numerals.ToString(65536, 16) == "10000";
    assert Numerals.ToString(15, 16) == "f";
  }

  /** The category as the hook leaves it. */
  function WithDefaultColor(c: Category, draw: nat): (r: Category)
    requires draw < ColorRange
    ensures r == c.(color := r.color)
    ensures !MissingOrBlank(c.color) ==> r == c
    ensures MissingOrBlank(c.color) ==> r.color == Some(GeneratedColor(draw))
  {
    if MissingOrBlank(c.color) then c.(color := Some(GeneratedColor(draw))) else c
  }

  /** After the hook the colour is present and not blank. */
  lemma ColorPresentAfterHook(c: Category, draw: nat)
    requires draw < ColorRange
    ensures WithDefaultColor(c, draw).color.Some?
    ensures !IsBlank(WithDefaultColor(c, draw).color.value)
  {
    if MissingOrBlank(c.color) {
      GeneratedColorShape(draw);
    }
  }

  /** Saving a second time never changes the colour again, whatever the second draw. */
  lemma HookIdempotent(c: Category, first: nat, second: nat)
    requires first < ColorRange && second < ColorRange
    ensures WithDefaultColor(WithDefaultColor(c, first), second) == WithDefaultColor(c, first)
  {
    ColorPresentAfterHook(c, first);
  }

  /** A category document in memory, whose fields the save hook updates in place. */
  class CategoryDocument {
    var name: string
    var icon: Option<string>
    var color: Option<string>
    var image: string
    var products: seq<Id>

    function Value(): Category
      reads this
    {
      Category(name, icon, color, image, products)
    }

    constructor(c: Category)
      ensures Value() == c
    {
      name := c.name;
      icon := c.icon;
      color := c.color;
      image := c.image;
      products := c.products;
    }

    /** The pre-save hook, with the random draw as a parameter. */
    method PreSave(draw: nat)
      requires draw < ColorRange
      modifies this
      ensures Value() == WithDefaultColor(old(Value()), draw)
    {
      if color.None? || IsBlank(color.value) {
        color := Some("#" + Numerals.ToString(draw, 16));
      }
    }
  }
}
