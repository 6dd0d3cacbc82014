/** The list card's one rule: the picture it shows is the first photo of the venue. */
module IzakayaCard {
  import opened Common

  /** The hero image: the url of the first photo, or none when there are no photos. */
  function HeroUrl(urls: seq<string>): Option<string> {
    if |urls| > 0 then Some(urls[0]) else None
  }
}
