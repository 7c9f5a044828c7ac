/** The profile page's form: the defaults derived from the signed-in user,
    the per-field update, the experience buttons and the risk slider. */
module Profile {
  import opened Wrappers

  /** The signed-in user's fields the form reads; `""` stands for a
      missing or empty value, both of which are falsy. */
  datatype AuthUser = AuthUser(displayName: string, email: string, uid: string)

  datatype ProfileData = ProfileData(
    fullName: string, email: string, gender: string, dateOfBirth: string,
    phoneNumber: string, country: string, userId: string,
    preferredCurrency: string, tradingExperience: string, riskTolerance: string)

  datatype Field =
    | FullName | Email | Gender | DateOfBirth | PhoneNumber | Country
    | UserId | PreferredCurrency | TradingExperience | RiskTolerance

  const DefaultUserId := "USER-12345678"

  function Get(d: ProfileData, f: Field): string {
    match f
    case FullName => d.fullName
    case Email => d.email
    case Gender => d.gender
    case DateOfBirth => d.dateOfBirth
    case PhoneNumber => d.phoneNumber
    case Country => d.country
    case UserId => d.userId
    case PreferredCurrency => d.preferredCurrency
    case TradingExperience => d.tradingExperience
    case RiskTolerance => d.riskTolerance
  }

  /** `{ ...prev, [name]: value }`. */
  function Set(d: ProfileData, f: Field, v: string): (r: ProfileData)
    ensures Get(r, f) == v
    ensures forall g :: g != f ==> Get(r, g) == Get(d, g)
  {
    match f
    case FullName => d.(fullName := v)
    case Email => d.(email := v)
    case Gender => d.(gender := v)
    case DateOfBirth => d.(dateOfBirth := v)
    case PhoneNumber => d.(phoneNumber := v)
    case Country => d.(country := v)
    case UserId => d.(userId := v)
    case PreferredCurrency => d.(preferredCurrency := v)
    case TradingExperience => d.(tradingExperience := v)
    case RiskTolerance => d.(riskTolerance := v)
  }

  /** `s.split('@')[0]`: the text before the first `@`, or all of `s`. */
  function BeforeFirstAt(s: string): (r: string)
    ensures |r| <= |s| && r == s[..|r|]
    ensures '@' !in r
    ensures |r| < |s| ==> s[|r|] == '@'
  {
    if s == [] || s[0] == '@' then [] else [s[0]] + BeforeFirstAt(s[1..])
  }

  /** The initial `formData`. */
  function InitialForm(user: Option<AuthUser>): (d: ProfileData)
    ensures user.Some? && user.value.displayName != "" ==> d.fullName == user.value.displayName
    ensures user.Some? && user.value.displayName == "" ==> d.fullName == BeforeFirstAt(user.value.email)
    ensures user.None? ==> d.fullName == "" && d.email == "" && d.userId == DefaultUserId
    ensures user.Some? ==> d.email == user.value.email
    ensures user.Some? && user.value.uid != "" ==> d.userId == user.value.uid
    ensures user.Some? && user.value.uid == "" ==> d.userId == DefaultUserId
    ensures d.gender == "" && d.dateOfBirth == "" && d.phoneNumber == "" && d.country == ""
    ensures d.preferredCurrency == "USD" && d.tradingExperience == "Beginner" && d.riskTolerance == "Medium"
  {
    var fullName := if user.None? then ""
                    else if user.value.displayName != "" then user.value.displayName
                    else BeforeFirstAt(user.value.email);
    ProfileData(fullName, if user.Some? then user.value.email else "", "", "", "", "",
                if user.Some? && user.value.uid != "" then user.value.uid else DefaultUserId,
                "USD", "Beginner", "Medium")
  }

  /** The derived full name never contains an `@` unless it is the
      display name itself. */
  lemma DerivedNameHasNoAt(user: AuthUser)
    requires user.displayName == ""
    ensures '@' !in InitialForm(Some(user)).fullName
    ensures user.email == InitialForm(Some(user)).fullName + user.email[|InitialForm(Some(user)).fullName|..]
  {
  }

  /** The slider position shown for a tolerance. */
  function SliderValue(tolerance: string): (v: int)
    ensures 0 <= v <= 2
    ensures v == 0 <==> tolerance == "Low"
    ensures v == 1 <==> tolerance == "Medium"
  {
    if tolerance == "Low" then 0 else if tolerance == "Medium" then 1 else 2
  }

  /** The tolerance a slider position selects. */
  function ToleranceOf(v: int): (t: string)
    ensures t == "Low" || t == "Medium" || t == "High"
    ensures t == "Low" <==> v == 0
    ensures t == "Medium" <==> v == 1
  {
    if v == 0 then "Low" else if v == 1 then "Medium" else "High"
  }

  /** Reading a tolerance back from its slider position gives it back. */
  lemma ToleranceRoundTrip(t: string)
    requires t == "Low" || t == "Medium" || t == "High"
    ensures ToleranceOf(SliderValue(t)) == t
  {
  }

  /** Showing a slider position's tolerance puts the slider back there. */
  lemma SliderRoundTrip(v: int)
    requires 0 <= v <= 2
    ensures SliderValue(ToleranceOf(v)) == v
  {
  }

  /** The form's state. */
  class ProfileForm {
    var data: ProfileData
    var loading: bool

    constructor (user: Option<AuthUser>)
      ensures data == InitialForm(user) && !loading
    {
      data := InitialForm(user);
      loading := false;
    }

    /** `handleChange` for the input named `name`. */
    method HandleChange(name: Field, value: string)
      modifies this
      ensures data == Set(old(data), name, value) && loading == old(loading)
    {
      data := Set(data, name, value);
    }

    /** One of the trading-experience buttons. */
    method SetExperience(level: string)
      modifies this
      ensures data == Set(old(data), TradingExperience, level) && loading == old(loading)
    {
      data := data.(tradingExperience := level);
    }

    /** The risk slider's `onChange` with the parsed position. */
    method SetSlider(v: int)
      modifies this
      ensures data == Set(old(data), RiskTolerance, ToleranceOf(v)) && loading == old(loading)
      ensures 0 <= v <= 2 ==> SliderValue(data.riskTolerance) == v
    {
      data := data.(riskTolerance := ToleranceOf(v));
    }

    /** `handleSubmit`: starts the simulated save. */
    method HandleSubmit()
      modifies this
      ensures loading && data == old(data)
    {
      loading := true;
    }

    /** The simulated save completes. */
    method FinishSave()
      modifies this
      ensures !loading && data == old(data)
    {
      loading := false;
    }
  }
}
