/** The interface languages of the application (`Language` in types.ts). */
module Locale {

  datatype Language = En | Ru | Kk | Ky

  /** The two-letter code of a language. */
  function LanguageCode(language: Language): (r: string)
    ensures |r| == 2
  {
    match language
    case En => "en"
    case Ru => "ru"
    case Kk => "kk"
    case Ky => "ky"
  }
}
