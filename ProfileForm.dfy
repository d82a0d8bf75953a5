/**
 * The customer profile form: five text fields, inline validation of three of
 * them (full name and address required, phone at least ten decimal digits),
 * per-field updates on change, and a submit step that collects the errors and
 * starts the (simulated) save only when there are none.
 */
module ProfileForm {
  import opened Text

  /** `keyof Profile`, in the order `Object.keys` lists the fields of a profile. */
  datatype Field = FullName | Email | Phone | Address | Wallet

  const FieldOrder: seq<Field> := [FullName, Email, Phone, Address, Wallet]

  /** The fields the submit step validates (email and wallet are skipped). */
  const ValidatedFields: set<Field> := {FullName, Phone, Address}

  datatype Profile = Profile(fullName: string, email: string, phone: string, address: string, wallet: string)

  const InitialProfile: Profile := Profile("", "", "", "", "")

  function Get(p: Profile, f: Field): string
  {
    match f
    case FullName => p.fullName
    case Email => p.email
    case Phone => p.phone
    case Address => p.address
    case Wallet => p.wallet
  }

  /** `{ ...profile, [name]: value }`: the named field takes the new value, the others keep theirs. */
  function With(p: Profile, f: Field, value: string): (r: Profile)
    ensures forall g :: Get(r, g) == if g == f then value else Get(p, g)
  {
    match f
    case FullName => p.(fullName := value)
    case Email => p.(email := value)
    case Phone => p.(phone := value)
    case Address => p.(address := value)
    case Wallet => p.(wallet := value)
  }

  /** The pattern /^\d{min,}$/ tried on `s`: at least `min` characters, all decimal digits. */
  predicate DigitsAtLeast(s: string, min: nat)
    decreases |s|
  {
    if s == [] then min == 0
    else IsDigit(s[0]) && DigitsAtLeast(s[1..], if min == 0 then 0 else min - 1)
  }

  lemma {:induction false} DigitsAtLeastIff(s: string, min: nat)
    ensures DigitsAtLeast(s, min) <==> |s| >= min && forall i :: 0 <= i < |s| ==> IsDigit(s[i])
  {
    if s != [] {
      DigitsAtLeastIff(s[1..], if min == 0 then 0 else min - 1);
      assert forall i :: 1 <= i < |s| ==> s[i] == s[1..][i - 1];
    }
  }

  /** The phone rule: `/^\d{10,}$/.test(value)`. */
  predicate IsPhoneNumber(value: string)
  {
    DigitsAtLeast(value, 10)
  }

  const FullNameRequired: string := "Full name is required."
  const InvalidPhone: string := "Enter a valid phone number."
  const AddressRequired: string := "Address is required."

  /** `validate(field, value)`: the error message for the value, or "" when it is acceptable. */
  function Validate(f: Field, value: string): (message: string)
    ensures message != "" ==>
      || (f == FullName && message == FullNameRequired)
      || (f == Phone && message == InvalidPhone)
      || (f == Address && message == AddressRequired)
  {
    var e1 := if f == FullName && value == "" then FullNameRequired else "";
    var e2 := if f == Phone && !IsPhoneNumber(value) then InvalidPhone else e1;
    if f == Address && value == "" then AddressRequired else e2
  }

  /** What each field's rule accepts: a name or address when it is non-empty, a phone number
      when it is ten or more decimal digits, and any email or wallet text. */
  lemma ValidateRules(f: Field, value: string)
    ensures f == FullName ==> (Validate(f, value) != "" <==> value == "")
    ensures f == Address ==> (Validate(f, value) != "" <==> value == "")
    ensures f == Phone ==>
      (Validate(f, value) != "" <==> !(|value| >= 10 && forall i :: 0 <= i < |value| ==> IsDigit(value[i])))
    ensures f == Email || f == Wallet ==> Validate(f, value) == ""
  {
    DigitsAtLeastIff(value, 10);
  }

  /** The message `validate` gives for the current value of field `f`. */
  function FieldError(p: Profile, f: Field): string
  {
    Validate(f, Get(p, f))
  }

  /** The errors the submit step collects: one entry for each validated field that fails,
      holding that field's message. */
  function SubmitErrors(p: Profile): (errors: map<Field, string>)
    ensures errors.Keys <= ValidatedFields
    ensures forall f :: f in errors ==> errors[f] != "" && errors[f] == Validate(f, Get(p, f))
  {
    map f | f in ValidatedFields && FieldError(p, f) != "" :: FieldError(p, f)
  }

  /** `Object.keys` of a profile lists every field. */
  lemma FieldOrderComplete()
    ensures forall f :: f in FieldOrder
  {
    forall f: Field
      ensures f in FieldOrder
    {
      match f
      case FullName => assert FieldOrder[0] == f;
      case Email => assert FieldOrder[1] == f;
      case Phone => assert FieldOrder[2] == f;
      case Address => assert FieldOrder[3] == f;
      case Wallet => assert FieldOrder[4] == f;
    }
  }

  /** The keys of the collected errors are exactly the failing validated fields; email and
      wallet never appear. */
  lemma SubmitErrorsKeys(p: Profile)
    ensures forall f :: f in SubmitErrors(p) <==>
      || (f == FullName && p.fullName == "")
      || (f == Phone && !IsPhoneNumber(p.phone))
      || (f == Address && p.address == "")
    ensures Email !in SubmitErrors(p) && Wallet !in SubmitErrors(p)
  {
  }

  /** The save may start exactly when the name and address are filled in and the phone
      number passes its pattern. */
  lemma SaveGate(p: Profile)
    ensures |SubmitErrors(p)| == 0 <==> p.fullName != "" && IsPhoneNumber(p.phone) && p.address != ""
  {
    var errors := SubmitErrors(p);
    if p.fullName == "" {
      assert FullName in errors;
    } else if !IsPhoneNumber(p.phone) {
      assert Phone in errors;
    } else if p.address == "" {
      assert Address in errors;
    } else {
      assert errors == map[];
    }
  }

  /** Submitting the untouched form reports all three validated fields. */
  lemma InitialProfileFailsAllRules()
    ensures SubmitErrors(InitialProfile).Keys == ValidatedFields
    ensures SubmitErrors(InitialProfile) ==
      map[FullName := FullNameRequired, Phone := InvalidPhone, Address := AddressRequired]
  {
    assert !IsPhoneNumber(InitialProfile.phone);
  }

  /** The `forEach` over the profile's keys in `handleSave`, building `newErrors`. */
  method CollectErrors(p: Profile) returns (newErrors: map<Field, string>)
    ensures newErrors == SubmitErrors(p)
  {
    newErrors := map[];
    for k := 0 to |FieldOrder|
      invariant forall f :: f in newErrors <==>
        f in FieldOrder[..k] && f in ValidatedFields && FieldError(p, f) != ""
      invariant forall f :: f in newErrors ==> newErrors[f] == FieldError(p, f)
    {
      var field := FieldOrder[k];
      assert FieldOrder[..k + 1] == FieldOrder[..k] + [field];
      if field != Email && field != Wallet {
        var error := FieldError(p, field);
        if error != "" {
          newErrors := newErrors[field := error];
        }
      }
    }
    assert FieldOrder[..|FieldOrder|] == FieldOrder;
    FieldOrderComplete();
  }

  class CustomerProfile {
    var profile: Profile
    var errors: map<Field, string>
    var loading: bool

    constructor ()
      ensures profile == InitialProfile && errors == map[] && !loading
    {
      profile := InitialProfile;
      errors := map[];
      loading := false;
    }

    /** An inline error is shown for a field when its entry is a non-empty message. */
    predicate ShowsError(f: Field)
      reads this
    {
      f in errors && errors[f] != ""
    }

    /** `handleChange`: the named field takes the typed value and its error entry is
        re-validated; every other field and error entry is kept. */
    method HandleChange(name: Field, value: string)
      modifies this
      ensures profile == With(old(profile), name, value)
      ensures errors == old(errors)[name := Validate(name, value)]
      ensures loading == old(loading)
      ensures ShowsError(name) <==> Validate(name, value) != ""
      ensures forall g :: g != name ==> Get(profile, g) == Get(old(profile), g)
    {
      profile := With(profile, name, value);
      errors := errors[name := Validate(name, value)];
    }

    /** `handleSave`: the collected errors replace the old ones, and loading starts only when
        there are none. */
    method HandleSave()
      modifies this
      ensures errors == SubmitErrors(profile) && profile == old(profile)
      ensures loading == if |errors| == 0 then true else old(loading)
    {
      var newErrors := CollectErrors(profile);
      errors := newErrors;
      if |newErrors| == 0 {
        loading := true;
      }
    }

    /** The end of the simulated save delay. */
    method SaveFinished()
      modifies this
      ensures !loading && profile == old(profile) && errors == old(errors)
    {
      loading := false;
    }
  }
}
