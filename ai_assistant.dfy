/** The assistant page (src/components/AI/AIAssistant.tsx): the chat panel,
    which appends what the user sends to the history, and the provider
    switches, which rewrite the `ai` section of the configuration so that its
    `enabled` flag says whether any provider is on. The simulated reply,
    chosen at random after a delay, is not modelled. */
module AIAssistant {
  import opened Common
  import opened Domain
  import System

  // ---------------------------------------------------------------------------
  // Providers
  // ---------------------------------------------------------------------------

  function HasId(id: string): AIProvider -> bool
  {
    (p: AIProvider) => p.id == id
  }

  function WithEnabled(enabled: bool): AIProvider -> AIProvider
  {
    (p: AIProvider) => p.(enabled := enabled)
  }

  /** `providers.map(p => p.id === providerId ? { ...p, enabled } : p)`. */
  function SetProviderEnabled(providers: seq<AIProvider>, id: string, enabled: bool): (r: seq<AIProvider>)
    ensures |r| == |providers|
    ensures forall k :: 0 <= k < |r| && providers[k].id == id ==> r[k] == providers[k].(enabled := enabled)
    ensures forall k :: 0 <= k < |r| && providers[k].id != id ==> r[k] == providers[k]
  {
    UpdateWhere(providers, HasId(id), WithEnabled(enabled))
  }

  /** Switching a provider twice leaves the last choice; switching it back to
      what it was gives the list back. */
  lemma SetProviderEnabledLastWins(providers: seq<AIProvider>, id: string, a: bool, b: bool)
    ensures SetProviderEnabled(SetProviderEnabled(providers, id, a), id, b) == SetProviderEnabled(providers, id, b)
    ensures (forall k :: 0 <= k < |providers| && providers[k].id == id ==> providers[k].enabled == b)
            ==> SetProviderEnabled(providers, id, b) == providers
  {
  }

  /** `providers.some(p => p.enabled)`. */
  predicate AnyEnabled(providers: seq<AIProvider>)
  {
    exists k :: 0 <= k < |providers| && providers[k].enabled
  }

  /** The configuration holds a provider list in its `ai` section; without one
      the page cannot render and `toggleAIProvider` throws. */
  predicate HasProviders(config: Config)
  {
    "ai" in config && "providers" in config["ai"] && config["ai"]["providers"].Providers?
  }

  function ProvidersOf(config: Config): seq<AIProvider>
    requires HasProviders(config)
  {
    config["ai"]["providers"].providers
  }

  /** `toggleAIProvider(providerId, enabled)`: the configuration after
      `updateConfig` merges the rewritten `ai` section. */
  function ToggleAIProvider(config: Config, id: string, enabled: bool): (r: Config)
    requires HasProviders(config)
    ensures HasProviders(r) && ProvidersOf(r) == SetProviderEnabled(ProvidersOf(config), id, enabled)
  {
    var updated := SetProviderEnabled(ProvidersOf(config), id, enabled);
    var ai := config["ai"]["providers" := Providers(updated)]["enabled" := Flag(AnyEnabled(updated))];
    System.MergeConfig(config, map["ai" := ai])
  }

  /** The `ai` flag agrees with its providers. */
  predicate FlagAgrees(config: Config)
  {
    HasProviders(config) && "enabled" in config["ai"] && config["ai"]["enabled"] == Flag(AnyEnabled(ProvidersOf(config)))
  }

  /** After a switch the `ai` flag is on exactly when some provider is on;
      the other fields of the section and the other sections are kept. */
  lemma ToggleAIProviderEffect(config: Config, id: string, enabled: bool)
    requires HasProviders(config)
    ensures var r := ToggleAIProvider(config, id, enabled);
      && FlagAgrees(r)
      && r.Keys == config.Keys
      && (forall s :: s in config && s != "ai" ==> r[s] == config[s])
      && r["ai"].Keys == config["ai"].Keys + {"enabled"}
      && (forall f :: f in config["ai"] && f != "providers" && f != "enabled" ==> r["ai"][f] == config["ai"][f])
  {
  }

  /** Switching on a provider that is listed turns the assistant on;
      switching every listed provider off turns it off. */
  lemma ToggleAIProviderTurnsAssistant(config: Config, id: string, enabled: bool)
    requires HasProviders(config)
    ensures enabled && (exists k :: 0 <= k < |ProvidersOf(config)| && ProvidersOf(config)[k].id == id)
      ==> ToggleAIProvider(config, id, enabled)["ai"]["enabled"] == Flag(true)
    ensures (forall k :: 0 <= k < |ProvidersOf(config)| ==> ProvidersOf(config)[k].id == id)
      ==> ToggleAIProvider(config, id, enabled)["ai"]["enabled"] == Flag(enabled && ProvidersOf(config) != [])
  {
    var updated := SetProviderEnabled(ProvidersOf(config), id, enabled);
    if enabled && (exists k :: 0 <= k < |ProvidersOf(config)| && ProvidersOf(config)[k].id == id) {
      var k :| 0 <= k < |ProvidersOf(config)| && ProvidersOf(config)[k].id == id;
      assert updated[k].enabled;
    }
    if ProvidersOf(config) != [] && (forall k :: 0 <= k < |ProvidersOf(config)| ==> ProvidersOf(config)[k].id == id) {
      assert updated[0].enabled == enabled;
    }
  }

  // ---------------------------------------------------------------------------
  // The chat panel
  // ---------------------------------------------------------------------------

  datatype Sender = UserSender | AssistantSender

  datatype ChatMessage = ChatMessage(sender: Sender, content: string, timestamp: Timestamp)

  /** The part of `handleSendMessage` that runs at once: a blank message is
      ignored; otherwise the user's message, as typed, joins the history and
      the input is cleared. */
  function AfterSend(history: seq<ChatMessage>, message: string, now: Timestamp): (r: (seq<ChatMessage>, string))
    ensures AllSpace(message) ==> r == (history, message)
    ensures !AllSpace(message) ==>
      (r.0 == history + [ChatMessage(UserSender, message, now)] && r.1 == "")
  {
    if Trim(message) == [] then (history, message) else (history + [ChatMessage(UserSender, message, now)], "")
  }

  /** Pressing send again right away adds nothing: the input is empty. */
  lemma SendTwiceAddsOnce(history: seq<ChatMessage>, message: string, now: Timestamp, later: Timestamp)
    ensures var r := AfterSend(history, message, now);
      AfterSend(r.0, r.1, later) == r
    ensures |AfterSend(history, message, now).0| <= |history| + 1
  {
  }

  class ChatPanel {
    var history: seq<ChatMessage>
    var message: string

    constructor()
      ensures history == [] && message == ""
    {
      history := [];
      message := "";
    }

    /** The message input. */
    method Type(text: string)
      modifies this
      ensures message == text && history == old(history)
    {
      message := text;
    }

    /** `handleSendMessage`, up to the timer that posts the reply. */
    method SendMessage(now: Timestamp)
      modifies this
      ensures (history, message) == AfterSend(old(history), old(message), now)
    {
      if Trim(message) != [] {
        history := history + [ChatMessage(UserSender, message, now)];
        message := "";
      }
    }
  }
}
