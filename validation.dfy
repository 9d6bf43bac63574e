/** The artwork validator (lib/validation.ts): one error message per invalid
    field, collected in a record, and a verdict that holds when the record is
    empty. The price is `None` when it is NaN. Lengths are those of JavaScript
    strings: UTF-16 code units of the untrimmed text. */
module Validation {
  import opened Common

  const TitleLimit: nat := 100
  const DescriptionLimit: nat := 1000

  /** `s.length`: a character outside the Basic Multilingual Plane takes two
      UTF-16 code units, any other character one. */
  function JsLength(s: string): (r: nat)
    ensures |s| <= r <= 2 * |s|
    decreases |s|
  {
    if s == [] then 0 else (if s[0] as int > 0xFFFF then 2 else 1) + JsLength(s[1..])
  }

  /** Text made of characters of the Basic Multilingual Plane has one code unit per character. */
  lemma {:induction false} JsLengthBmp(s: string)
    requires forall i :: 0 <= i < |s| ==> s[i] as int <= 0xFFFF
    ensures JsLength(s) == |s|
    decreases |s|
  {
    if s != [] {
      JsLengthBmp(s[1..]);
    }
  }

  /** Text made of characters outside the Basic Multilingual Plane has two code units per character. */
  lemma {:induction false} JsLengthAstral(s: string)
    requires forall i :: 0 <= i < |s| ==> s[i] as int > 0xFFFF
    ensures JsLength(s) == 2 * |s|
    decreases |s|
  {
    if s != [] {
      JsLengthAstral(s[1..]);
    }
  }

  datatype ArtworkData = ArtworkData(title: string, description: string, price: Option<int>, category: string)

  /** The keys of the errors record. */
  datatype Field = Title | Description | Price | CategoryField

  function Key(f: Field): string {
    match f
    case Title => "title"
    case Description => "description"
    case Price => "price"
    case CategoryField => "category"
  }

  datatype ValidationResult = ValidationResult(isValid: bool, errors: map<Field, string>)

  /** One text field's check: a blank text is required, an over-long one is
      too long; the record gains at most that field's message. */
  method CheckText(errors: map<Field, string>, field: Field, text: string, limit: nat,
                   required: string, tooLong: string)
    returns (errors': map<Field, string>)
    ensures field in errors' <==> field in errors || Blank(text) || JsLength(text) > limit
    ensures Blank(text) ==> errors'[field] == required
    ensures !Blank(text) && JsLength(text) > limit ==> errors'[field] == tooLong
    ensures !Blank(text) && JsLength(text) <= limit ==> errors' == errors
    ensures forall k :: k in errors' && k != field ==> k in errors && errors'[k] == errors[k]
    ensures forall k :: k in errors ==> k in errors'
  {
    TrimEmptyIff(text);
    if Trim(text) == "" {
      errors' := errors[field := required];
    } else if JsLength(text) > limit {
      errors' := errors[field := tooLong];
    } else {
      errors' := errors;
    }
  }

  /** `validateArtwork`: the record starts empty and each check in turn may
      set its field's message. */
  method ValidateArtwork(data: ArtworkData) returns (result: ValidationResult)
    ensures Title in result.errors <==> Blank(data.title) || JsLength(data.title) > TitleLimit
    ensures Blank(data.title) ==> result.errors[Title] == "Title is required"
    ensures !Blank(data.title) && JsLength(data.title) > TitleLimit
      ==> result.errors[Title] == "Title must be less than 100 characters"
    ensures Description in result.errors <==> Blank(data.description) || JsLength(data.description) > DescriptionLimit
    ensures Blank(data.description) ==> result.errors[Description] == "Description is required"
    ensures !Blank(data.description) && JsLength(data.description) > DescriptionLimit
      ==> result.errors[Description] == "Description must be less than 1000 characters"
    ensures Price in result.errors <==> data.price.None? || data.price.value < 0
    ensures Price in result.errors ==> result.errors[Price] == "Price must be a positive number"
    ensures CategoryField in result.errors <==> data.category == ""
    ensures CategoryField in result.errors ==> result.errors[CategoryField] == "Category is required"
    ensures result.isValid <==> result.errors == map[]
    ensures result.isValid <==>
      && !Blank(data.title) && JsLength(data.title) <= TitleLimit
      && !Blank(data.description) && JsLength(data.description) <= DescriptionLimit
      && data.price.Some? && data.price.value >= 0
      && data.category != ""
  {
    var errors: map<Field, string> := map[];
    errors := CheckText(errors, Title, data.title, TitleLimit,
      "Title is required", "Title must be less than 100 characters");
    errors := CheckText(errors, Description, data.description, DescriptionLimit,
      "Description is required", "Description must be less than 1000 characters");
    if data.price.None? || data.price.value < 0 {
      errors := errors[Price := "Price must be a positive number"];
    }
    if data.category == "" {
      errors := errors[CategoryField := "Category is required"];
    }
    result := ValidationResult(|errors.Keys| == 0, errors);
    assert |errors.Keys| == 0 <==> errors == map[] by {
      if |errors.Keys| == 0 {
        assert errors.Keys == {};
      }
    }
    if Title !in errors && Description !in errors && Price !in errors && CategoryField !in errors {
      assert forall f :: f !in errors by {
        forall f ensures f !in errors {
          match f
          case Title =>
          case Description =>
          case Price =>
          case CategoryField =>
        }
      }
      assert errors == map[];
    }
  }

  /** A title of exactly 100 characters, a description of exactly 1000 and a
      price of 0 are accepted, with a category given. */
  method BoundaryAccepted() returns (ok: bool)
    ensures ok
  {
    var title := seq(TitleLimit, _ => 'a');
    var description := seq(DescriptionLimit, _ => 'b');
    assert !Blank(title) by { assert !IsSpace(title[0]); }
    assert !Blank(description) by { assert !IsSpace(description[0]); }
    JsLengthBmp(title);
    JsLengthBmp(description);
    var result := ValidateArtwork(ArtworkData(title, description, Some(0), "painting"));
    ok := result.isValid;
  }

  /** Fifty characters outside the Basic Multilingual Plane fit a title of
      100 code units; fifty-one do not, though they are far fewer than 100
      characters. */
  method AstralTitleLength() returns (fits: bool, tooLong: bool)
    ensures fits && tooLong
  {
    var fifty := seq(50, _ => '\U{1F3A8}');
    var more := seq(51, _ => '\U{1F3A8}');
    assert !Blank(fifty) by { assert !IsSpace(fifty[0]); }
    assert !Blank(more) by { assert !IsSpace(more[0]); }
    JsLengthAstral(fifty);
    JsLengthAstral(more);
    var a := ValidateArtwork(ArtworkData(fifty, "d", Some(0), "painting"));
    var b := ValidateArtwork(ArtworkData(more, "d", Some(0), "painting"));
    fits := Title !in a.errors;
    tooLong := Title in b.errors && b.errors[Title] == "Title must be less than 100 characters";
  }
}
