/**
 * `translate_to_lighthouse_key`: a monitored site's canonical URL is not always
 * the URL its Lighthouse reports were filed under, so a static alias table is
 * consulted.
 */
module UrlAlias {
  import opened Wrappers

  /** The alias table: canonical URL -> URL the audit data is filed under. */
  const UrlMappings: map<string, string> := map[
    "https://coronaviruscolombia.gov.co/" := "https://coronaviruscolombia.gov.co/Covid19/index.html",
    "https://health.ri.gov/covid" := "https://health.ri.gov/covid/",
    "https://www.health.ny.gov/diseases/communicable/coronavirus/" := "https://coronavirus.health.ny.gov/home",
    "https://www.govt.nz/covid-19-novel-coronavirus/" := "https://covid19.govt.nz/",
    "https://en.ssi.dk" := "https://en.ssi.dk/",
    "https://arkartassituacija.gov.lv" := "https://arkartassituacija.gov.lv/",
    "https://www.bahamas.gov.bs" := "https://www.bahamas.gov.bs/",
    "https://www.mspas.gob.gt/index.php/noticias/coronavirus-2019-ncov" :=
      "https://www.mspas.gob.gt/index.php/noticias/covid-19/coronavirus-2019-ncov",
    "https://www.mspas.gob.gt/index.php/noticias/covid-19/coronavirus-2019-ncov" :=
      "https://www.mspas.gob.gt/index.php/noticias/coronavirus-2019-ncov",
    "https://www.ontario.ca/page/2019-novel-coronavirus" := "https://covid-19.ontario.ca"
  ]

  /**
   * The key to look the site's audit data up under: the URL itself when it is
   * a key, else its alias when that is a key, else the URL unchanged.  A URL
   * that is not a key and has no alias raises KeyError.
   */
  function TranslateToLighthouseKey(keys: set<string>, url: string): (r: Result<string>)
    ensures r.Err? <==> url !in keys && url !in UrlMappings
    ensures r.Err? ==> r.failure == KeyMissing
    ensures url in keys ==> r == Ok(url)
    ensures url !in keys && url in UrlMappings && UrlMappings[url] in keys ==> r == Ok(UrlMappings[url])
    ensures url !in keys && url in UrlMappings && UrlMappings[url] !in keys ==> r == Ok(url)
    ensures r.Ok? && r.value != url ==> url !in keys && url in UrlMappings && r.value == UrlMappings[url]
  {
    if url in keys then Ok(url)
    else if url !in UrlMappings then Err(KeyMissing)
    else if UrlMappings[url] in keys then Ok(UrlMappings[url])
    else Ok(url)
  }

  /**
   * The lookup lands on a key exactly when the URL or its alias is one; when
   * neither is, it hands back the URL, which then is not a key.
   */
  lemma LookupFindsFiledData(keys: set<string>, url: string)
    requires url in keys || url in UrlMappings
    ensures TranslateToLighthouseKey(keys, url).Ok?
    ensures TranslateToLighthouseKey(keys, url).value in keys
        <==> url in keys || UrlMappings[url] in keys
  {
  }
}
