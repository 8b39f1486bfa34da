/**
 * Parsing of a comma-separated allow-list from an environment value
 * (ADMIN_EMAIL_ADDRESS, AZURE_AD_ALLOWED_PRINCIPALS): split on ',',
 * lower-case and trim each field, drop the empty ones. An unset variable
 * gives no list at all, which is different from an empty list.
 */
module AllowList {
  import opened Wrappers
  import opened Text

  /** One field as the parser keeps it: `field.toLowerCase().trim()`. */
  function Normalize(field: string): (r: string)
    ensures HasNoUpper(r)
    ensures r == [] || (!IsWhitespace(r[0]) && !IsWhitespace(r[|r| - 1]))
    ensures r == [] <==> AllWhitespace(field)
  {
    var lowered := ToLower(field);
    assert HasNoUpper(Trim(lowered)) by { TrimKeepsNoUpper(lowered); }
    assert AllWhitespace(lowered) <==> AllWhitespace(field) by { ToLowerKeepsBlank(field); }
    Trim(lowered)
  }

  lemma ToLowerKeepsBlank(s: string)
    ensures AllWhitespace(ToLower(s)) <==> AllWhitespace(s)
  {
    var t := ToLower(s);
    forall i | 0 <= i < |s| ensures IsWhitespace(t[i]) <==> IsWhitespace(s[i]) {
      LowerKeepsWhitespace(s[i]);
    }
  }

  /**
   * What `Normalize` keeps: the lower-cased characters of one stretch of
   * the field, with only whitespace before and after that stretch.
   */
  lemma NormalizeIsInfix(field: string) returns (lead: nat)
    ensures lead + |Normalize(field)| <= |field|
    ensures forall i :: 0 <= i < |Normalize(field)| ==> Normalize(field)[i] == LowerChar(field[lead + i])
    ensures forall i :: 0 <= i < lead ==> IsWhitespace(field[i])
    ensures forall i :: lead + |Normalize(field)| <= i < |field| ==> IsWhitespace(field[i])
  {
    var lowered := ToLower(field);
    var r := Trim(lowered);
    lead := TrimIsInfix(lowered);
    forall i | 0 <= i < lead ensures IsWhitespace(field[i]) {
      LowerKeepsWhitespace(field[i]);
    }
    forall i | lead + |r| <= i < |field| ensures IsWhitespace(field[i]) {
      LowerKeepsWhitespace(field[i]);
    }
  }

  /** What every entry of a parsed list looks like. */
  predicate IsNormalized(entry: string) {
    entry != [] && HasNoUpper(entry)
    && !IsWhitespace(entry[0]) && !IsWhitespace(entry[|entry| - 1])
  }

  /** Normalising an entry that is already normalised changes nothing. */
  lemma NormalizeIdempotent(field: string)
    ensures Normalize(Normalize(field)) == Normalize(field)
  {
    var n := Normalize(field);
    ToLowerOfLower(n);
    TrimOfTrimmed(n);
  }

  /** The `.map(...).filter(e => e)` part over the split fields. */
  function NormalizeFields(fields: seq<string>): (entries: seq<string>)
    ensures |entries| <= |fields|
    ensures forall e :: e in entries ==> IsNormalized(e)
  {
    if fields == [] then []
    else
      var n := Normalize(fields[0]);
      var rest := NormalizeFields(fields[1..]);
      if n == [] then rest else [n] + rest
  }

  /** The whole expression `env?.split(",").map(...).filter(...)`. */
  function ParseList(env: Option<string>): (list: Option<seq<string>>)
    ensures list.None? <==> env.None?
    ensures list.Some? ==> forall e :: e in list.value ==> IsNormalized(e)
  {
    match env
    case None => None
    case Some(s) => Some(NormalizeFields(Split(s, ',')))
  }

  /** Every field that is not blank is kept, normalised. */
  lemma {:induction false} NormalizeFieldsComplete(fields: seq<string>, f: string)
    requires f in fields && !AllWhitespace(f)
    ensures Normalize(f) in NormalizeFields(fields)
  {
    if fields[0] != f {
      NormalizeFieldsComplete(fields[1..], f);
    }
  }

  /** Every kept entry is the normalisation of one of the fields. */
  lemma {:induction false} NormalizeFieldsSound(fields: seq<string>, e: string)
    requires e in NormalizeFields(fields)
    ensures exists f :: f in fields && !AllWhitespace(f) && Normalize(f) == e
  {
    var n := Normalize(fields[0]);
    if n == [] || e != n {
      NormalizeFieldsSound(fields[1..], e);
      var f :| f in fields[1..] && !AllWhitespace(f) && Normalize(f) == e;
      assert f in fields;
    } else {
      assert fields[0] in fields;
    }
  }

  /**
   * Membership in a parsed list, in terms of the raw environment value:
   * `x` is in the list exactly when some non-blank comma-separated field
   * of the value normalises to `x`.
   */
  lemma {:induction false} ParseListMembership(s: string, x: string)
    ensures x in ParseList(Some(s)).value
            <==> exists f :: f in Split(s, ',') && !AllWhitespace(f) && Normalize(f) == x
  {
    var fields := Split(s, ',');
    if x in ParseList(Some(s)).value {
      NormalizeFieldsSound(fields, x);
    }
    if exists f :: f in fields && !AllWhitespace(f) && Normalize(f) == x {
      var f :| f in fields && !AllWhitespace(f) && Normalize(f) == x;
      NormalizeFieldsComplete(fields, f);
    }
  }

  /** The map-and-filter drops everything exactly when every field is blank. */
  lemma {:induction false} NormalizeFieldsEmpty(fields: seq<string>)
    ensures NormalizeFields(fields) == [] <==> forall f :: f in fields ==> AllWhitespace(f)
  {
    if fields != [] {
      NormalizeFieldsEmpty(fields[1..]);
      assert forall f :: f in fields <==> f == fields[0] || f in fields[1..];
    }
  }

  /**
   * A set variable gives an empty list (the "disabled" sentinel for the
   * allowed-principals check) exactly when every field is blank, such as
   * "" or " , ,".
   */
  lemma ParseListEmpty(s: string)
    ensures ParseList(Some(s)).value == [] <==> forall f :: f in Split(s, ',') ==> AllWhitespace(f)
  {
    NormalizeFieldsEmpty(Split(s, ','));
  }
}
