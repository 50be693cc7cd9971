/**
 * The `usage` command's data step: the extracted listing for one model is
 * converted entry by entry (only tokensUsed changes) and is produced only
 * when an output file is named. The batch collector applies the same
 * per-entry conversion to each model's listing.
 */
module Usage {
  import opened Wrappers
  import opened TokenAmount
  import opened TokenParse

  /** One entry of a model's usage listing, as extracted: a name, a url and an amount text. */
  datatype ScrapedApp = ScrapedApp(name: string, url: string, tokensUsed: string)

  /** The listing with each entry's amount converted and its other fields kept. */
  function WithConvertedTokens(appsData: seq<ScrapedApp>): (r: seq<ScrapedApp>)
    ensures |r| == |appsData|
  {
    seq(|appsData|, i requires 0 <= i < |appsData| =>
      appsData[i].(tokensUsed := ConvertTokensToNumber(appsData[i].tokensUsed)))
  }

  /** Same length and order; each entry keeps its name and url and has its amount converted. */
  lemma ConvertedEntries(appsData: seq<ScrapedApp>)
    ensures |WithConvertedTokens(appsData)| == |appsData|
    ensures forall i :: 0 <= i < |appsData| ==>
      && WithConvertedTokens(appsData)[i].name == appsData[i].name
      && WithConvertedTokens(appsData)[i].url == appsData[i].url
      && WithConvertedTokens(appsData)[i].tokensUsed == ConvertTokensToNumber(appsData[i].tokensUsed)
  {
  }

  /** Converting an already converted listing changes nothing. */
  lemma ConvertedIdempotent(appsData: seq<ScrapedApp>)
    ensures WithConvertedTokens(WithConvertedTokens(appsData)) == WithConvertedTokens(appsData)
  {
    var c := WithConvertedTokens(appsData);
    forall i | 0 <= i < |appsData| ensures WithConvertedTokens(c)[i] == c[i] {
      ConvertIdempotent(appsData[i].tokensUsed);
    }
  }

  /** An entry whose amount the pattern accepts is read back by the report as that amount's value. */
  lemma ConvertedReadBack(appsData: seq<ScrapedApp>, i: nat, a: Amount)
    requires i < |appsData| && WellFormed(a) && appsData[i].tokensUsed == Spell(a)
    ensures ParseTokenString(WithConvertedTokens(appsData)[i].tokensUsed) == AmountValue(a)
  {
    ConvertedEntries(appsData);
    ConvertRoundTrip(a);
  }

  /** What `collectUsage` writes: the file name and the converted listing (JSON text left out). */
  datatype UsageOutput = UsageOutput(outputFile: string, processedData: seq<ScrapedApp>)

  /**
   * The data step of `collectUsage`: with an output file (a non-empty name,
   * since an empty string is falsy) the converted listing is produced;
   * without one nothing is.
   */
  function CollectUsage(outputFile: Option<string>, appsData: seq<ScrapedApp>): (r: Option<UsageOutput>)
    ensures r.Some? <==> outputFile.Some? && outputFile.value != ""
    ensures r.Some? ==> r.value.outputFile == outputFile.value
    ensures r.Some? ==> |r.value.processedData| == |appsData|
    ensures r.Some? ==> forall i :: 0 <= i < |appsData| ==>
      r.value.processedData[i] == ScrapedApp(appsData[i].name, appsData[i].url, ConvertTokensToNumber(appsData[i].tokensUsed))
  {
    if outputFile.Some? && outputFile.value != "" then
      ConvertedEntries(appsData);
      Some(UsageOutput(outputFile.value, WithConvertedTokens(appsData)))
    else
      None
  }
}
