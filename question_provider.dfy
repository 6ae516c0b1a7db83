/**
  The choice of question generator (lib/game/questionProvider.ts). The configured
  provider name and the availability of each service are parameters.
 */
module QuestionProvider {

  const OpenRouter: string := "openrouter"
  const OpenAI: string := "openai"

  /** `isProviderAvailable(provider)`: only the two known names can be available. */
  function IsProviderAvailable(provider: string, openRouterAvailable: bool, openAIAvailable: bool): (r: bool)
    ensures provider == OpenRouter ==> (r <==> openRouterAvailable)
    ensures provider == OpenAI ==> (r <==> openAIAvailable)
    ensures provider != OpenRouter && provider != OpenAI ==> !r
  {
    if provider == OpenRouter then openRouterAvailable
    else if provider == OpenAI then openAIAvailable
    else false
  }

  /** The provider tried when the configured one is unavailable. */
  function Other(configured: string): (r: string)
    ensures configured == OpenRouter ==> r == OpenAI
    ensures configured != OpenRouter ==> r == OpenRouter
  {
    if configured == OpenRouter then OpenAI else OpenRouter
  }

  /** `getAvailableProvider()`: the configured provider if available, else the other one if available, else the configured one. */
  function GetAvailableProvider(configured: string, openRouterAvailable: bool, openAIAvailable: bool): string {
    if IsProviderAvailable(configured, openRouterAvailable, openAIAvailable) then configured
    else if IsProviderAvailable(Other(configured), openRouterAvailable, openAIAvailable) then Other(configured)
    else configured
  }

  /** The three cases of the choice. */
  lemma ChoiceCases(configured: string, openRouterAvailable: bool, openAIAvailable: bool)
    ensures var chosen := GetAvailableProvider(configured, openRouterAvailable, openAIAvailable);
      var available := (p: string) => IsProviderAvailable(p, openRouterAvailable, openAIAvailable);
      && (available(configured) ==> chosen == configured)
      && (!available(configured) && available(Other(configured)) ==> chosen == Other(configured))
      && (!available(configured) && !available(Other(configured)) ==> chosen == configured)
  {
  }

  /** Whenever at least one service is available, the chosen provider is available. */
  lemma ChosenIsAvailable(configured: string, openRouterAvailable: bool, openAIAvailable: bool)
    requires openRouterAvailable || openAIAvailable
    requires configured == OpenRouter || configured == OpenAI
    ensures IsProviderAvailable(GetAvailableProvider(configured, openRouterAvailable, openAIAvailable),
                                openRouterAvailable, openAIAvailable)
  {
  }

  /** The result is always one of the two providers when the configuration names one. */
  lemma ChosenIsKnown(configured: string, openRouterAvailable: bool, openAIAvailable: bool)
    requires configured == OpenRouter || configured == OpenAI
    ensures GetAvailableProvider(configured, openRouterAvailable, openAIAvailable) in {OpenRouter, OpenAI}
  {
  }
}
