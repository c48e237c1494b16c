/**
 * The profile form shown on first start (components/ProfileSetup.tsx): the
 * age and city choices, the city correction that keeps the city within the
 * chosen country, and the profile a submitted form produces.
 */
module Profile {
  import opened Wrappers
  import opened JsText

  datatype Gender = Male | Female | Other
  datatype Status = Online | Offline
  datatype SafetyLevel = Green | Yellow | Red

  datatype Filters = Filters(minAge: int, maxAge: int, countries: seq<string>, languages: seq<string>,
                             genders: seq<string>, soundEnabled: bool)

  /** A listener's profile (`UserProfile`). */
  datatype UserProfile = UserProfile(
    id: string,
    name: string,
    avatar: Option<string>,
    age: int,
    country: string,
    city: string,
    gender: Gender,
    status: Status,
    safetyLevel: SafetyLevel,
    blockedUsers: seq<string>,
    bio: string,
    hasAgreedToRules: bool,
    filters: Filters)

  datatype CountryCities = CountryCities(name: string, cities: seq<string>)

  /** The countries offered and their cities. */
  const COUNTRIES_DATA: seq<CountryCities> := [
    CountryCities("USA", ["New York", "Los Angeles", "Chicago", "Houston", "Phoenix"]),
    CountryCities("Russia", ["Moscow", "Saint Petersburg", "Kazan", "Novosibirsk", "Yekaterinburg"]),
    CountryCities("Kazakhstan", ["Almaty", "Astana", "Shymkent", "Karaganda", "Aktobe"]),
    CountryCities("Kyrgyzstan", ["Bishkek", "Osh", "Jalal-Abad", "Karakol", "Naryn"]),
    CountryCities("Germany", ["Berlin", "Hamburg", "Munich", "Cologne", "Frankfurt"]),
    CountryCities("Spain", ["Madrid", "Barcelona", "Valencia", "Seville", "Zaragoza"]),
    CountryCities("France", ["Paris", "Marseille", "Lyon", "Toulouse", "Nice"]),
    CountryCities("Italy", ["Rome", "Milan", "Naples", "Turin", "Palermo"]),
    CountryCities("UK", ["London", "Birmingham", "Glasgow", "Liverpool", "Manchester"]),
    CountryCities("Brazil", ["São Paulo", "Rio de Janeiro", "Brasília", "Salvador", "Fortaleza"]),
    CountryCities("Japan", ["Tokyo", "Osaka", "Nagoya", "Sapporo", "Fukuoka"]),
    CountryCities("Turkey", ["Istanbul", "Ankara", "Izmir", "Bursa", "Antalya"])
  ]

  const FIRST_AGE: nat := 18
  const AGE_COUNT: nat := 63
  const FALLBACK_CITY: string := "Other"

  /** `AGES`: the age picker's choices. */
  const AGES: seq<string> := seq(AGE_COUNT, i requires 0 <= i < AGE_COUNT => NatToString(i + FIRST_AGE))

  /** The age picker offers "18" up to "80" in ascending order, one per year. */
  lemma AgesAreEighteenToEighty()
    ensures |AGES| == 63
    ensures forall i | 0 <= i < |AGES| :: ParseIntOrZero(AGES[i]) == 18 + i
    ensures ParseIntOrZero(AGES[0]) == 18 && ParseIntOrZero(AGES[|AGES| - 1]) == 80
    ensures forall i, j | 0 <= i < j < |AGES| :: ParseIntOrZero(AGES[i]) < ParseIntOrZero(AGES[j])
  {
    forall i | 0 <= i < |AGES| ensures ParseIntOrZero(AGES[i]) == 18 + i {
      ParseIntOfNatToString(i + FIRST_AGE);
    }
  }

  /** `COUNTRIES_DATA.find(c => c.name === country)`. */
  function FindCountry(data: seq<CountryCities>, country: string): (r: Option<CountryCities>)
    ensures r.Some? ==> r.value in data && r.value.name == country
    ensures r.None? <==> forall i :: 0 <= i < |data| ==> data[i].name != country
  {
    if data == [] then None
    else if data[0].name == country then Some(data[0])
    else FindCountry(data[1..], country)
  }

  /** Every country offers at least one city. */
  predicate EveryCountryHasCities(data: seq<CountryCities>) {
    forall i :: 0 <= i < |data| ==> data[i].cities != []
  }

  /** The cities of `country` in `data`, or just "Other" for an unknown one. */
  function CitiesIn(data: seq<CountryCities>, country: string): (r: seq<string>)
    requires EveryCountryHasCities(data)
    ensures r != []
    ensures (exists c :: c in data && c.name == country) ==>
      exists c :: c in data && c.name == country && r == c.cities
    ensures (forall c | c in data :: c.name != country) ==> r == [FALLBACK_CITY]
  {
    var found := FindCountry(data, country);
    if found.Some? then found.value.cities else [FALLBACK_CITY]
  }

  lemma CountriesHaveCities()
    ensures EveryCountryHasCities(COUNTRIES_DATA)
  {
  }

  /** `availableCities`: the cities of the chosen country, or just "Other" for an unknown one. */
  function AvailableCities(country: string): (r: seq<string>)
    ensures r != []
  {
    CountriesHaveCities();
    CitiesIn(COUNTRIES_DATA, country)
  }

  /** The city-correction effect: a city the country does not offer is replaced by its first city. */
  function CorrectedCity(cities: seq<string>, city: string): (r: string)
    requires cities != []
    ensures r in cities
    ensures city in cities ==> r == city
  {
    if city in cities then city else cities[0]
  }

  /** Correcting an already corrected city changes nothing. */
  lemma CorrectionIdempotent(cities: seq<string>, city: string)
    requires cities != []
    ensures CorrectedCity(cities, CorrectedCity(cities, city)) == CorrectedCity(cities, city)
  {
  }

  /** The profile `handleSubmit` passes to `onComplete`, or nothing when the name is blank. */
  function SubmittedProfile(name: string, age: string, country: string, city: string, gender: Gender,
                            avatar: Option<string>): (r: Option<UserProfile>)
    ensures r.None? <==> AllWhitespace(name)
    ensures r.Some? ==> r.value.name == name && r.value.country == country && r.value.city == city &&
                        r.value.gender == gender && r.value.avatar == avatar
  {
    TrimEmpty(name);
    if Trim(name) == "" then None
    else Some(UserProfile(
      id := "me",
      name := name,
      avatar := avatar,
      age := ParseIntOrZero(age),
      country := country,
      city := city,
      gender := gender,
      status := Online,
      safetyLevel := Green,
      blockedUsers := [],
      bio := "Listening from " + city + ", " + country + "!",
      hasAgreedToRules := false,
      filters := Filters(18, 80, [], [], ["any"], true)))
  }

  /**
   * A profile submitted with an age from the picker carries that age as a
   * number, which lies within the profile's own age filter and prints back
   * to the picked text.
   */
  lemma SubmittedAgeFromPicker(name: string, i: int, country: string, city: string, gender: Gender,
                               avatar: Option<string>)
    requires !AllWhitespace(name) && 0 <= i < |AGES|
    ensures var p := SubmittedProfile(name, AGES[i], country, city, gender, avatar).value;
      p.age == 18 + i && p.filters.minAge <= p.age <= p.filters.maxAge && NatToString(p.age) == AGES[i]
  {
    AgesAreEighteenToEighty();
  }

  /** The form's state. */
  class ProfileForm {
    var name: string
    var age: string
    var country: string
    var city: string
    var gender: Gender
    var avatar: Option<string>

    /** The form as first shown: no name, 25 years, Moscow, Russia. */
    constructor ()
      ensures name == "" && age == "25" && country == "Russia" && city == "Moscow"
      ensures gender == Male && avatar == None
      ensures city in AvailableCities(country)
    {
      name := "";
      age := "25";
      country := "Russia";
      city := "Moscow";
      gender := Male;
      avatar := None;
      assert COUNTRIES_DATA[1].name == "Russia";
    }

    /** The city-correction effect, run after the country or city changes. */
    method CorrectCity()
      modifies this`city
      ensures city == CorrectedCity(AvailableCities(country), old(city))
      ensures city in AvailableCities(country)
    {
      var availableCities := AvailableCities(country);
      if city !in availableCities {
        city := availableCities[0];
      }
    }

    /** `handleSubmit`: the profile handed to `onComplete`, or none. */
    method Submit() returns (profile: Option<UserProfile>)
      ensures profile == SubmittedProfile(name, age, country, city, gender, avatar)
      ensures profile.None? <==> AllWhitespace(name)
    {
      profile := SubmittedProfile(name, age, country, city, gender, avatar);
    }
  }
}
