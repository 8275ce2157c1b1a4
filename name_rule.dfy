/**
 * The `name` rule that the four DTO files each declare alike:
 * `Joi.string().min(3).max(64).required()` with five messages that differ
 * only in their subject ("Kategori" or "Marka").
 */
module NameRule {
  import opened Wrappers
  import opened Joi

  const MinLength: nat := 3
  const MaxLength: nat := 64

  function MessagesFor(subject: string): Messages {
    Messages(
      subject + " ismi metin tipinde olmalıdır.",
      subject + " ismi boş bırakılamaz.",
      Template(subject + " ismi en az ", " karakter uzunluğunda olmalıdır."),
      Template(subject + " ismi en fazla ", " karakter uzunluğunda olmalıdır."),
      subject + " ismi zorunludur.")
  }

  /** The rule for `subject`'s name. */
  function Rule(subject: string): StringRule {
    StringRule("name", true, Some(MinLength), Some(MaxLength), false, None, MessagesFor(subject))
  }

  /** What the rule accepts: a string whose JavaScript length is 3 to 64. */
  predicate NameOk(v: Option<Value>) {
    v.Some? && v.value.Text? && MinLength <= Utf16Length(v.value.s) <= MaxLength
  }

  /** Each violated rule yields its own message, with the limit written in; nothing else fails. */
  lemma Errors(subject: string, v: Option<Value>)
    ensures v.None? ==>
      FieldErrors(Rule(subject), v) == [Detail(AnyRequired, "name", subject + " ismi zorunludur.")]
    ensures v == Some(NonText) ==>
      FieldErrors(Rule(subject), v) == [Detail(StringBase, "name", subject + " ismi metin tipinde olmalıdır.")]
    ensures v == Some(Text("")) ==>
      FieldErrors(Rule(subject), v) == [Detail(StringEmpty, "name", subject + " ismi boş bırakılamaz.")]
    ensures v.Some? && v.value.Text? && v.value.s != "" && Utf16Length(v.value.s) < 3 ==>
      FieldErrors(Rule(subject), v) ==
        [Detail(StringMin, "name", subject + " ismi en az " + "3" + " karakter uzunluğunda olmalıdır.")]
    ensures v.Some? && v.value.Text? && Utf16Length(v.value.s) > 64 ==>
      FieldErrors(Rule(subject), v) ==
        [Detail(StringMax, "name", subject + " ismi en fazla " + "64" + " karakter uzunluğunda olmalıdır.")]
    ensures FieldErrors(Rule(subject), v) == [] <==> NameOk(v)
  {
    Numerals.Three();
    Numerals.SixtyFour();
    BoundedRequiredRule(Rule(subject), v);
  }

  /** Lengths are JavaScript's: an emoji and a letter are three code units, enough for `min(3)`,
      while 33 emoji are 66, too many for `max(64)`. */
  lemma LengthInCodeUnits()
    ensures NameOk(Some(Text("\U{1F600}a")))
    ensures !NameOk(Some(Text(seq(33, _ => '\U{1F600}'))))
  {
    assert Utf16Length("\U{1F600}a") == 2 + Utf16Length("a");
    AstralLength(seq(33, _ => '\U{1F600}'));
  }
}
