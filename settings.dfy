/** The settings screen (src/components/Settings/Settings.tsx): every input
    writes one field of one section of the configuration through
    `updateConfig` and raises the unsaved-changes flag, which the save button
    lowers; the provider checkboxes write the whole provider list of the `ai`
    section. */
module Settings {
  import opened Common
  import opened Domain
  import System
  import AIAssistant

  /** `{ ...config, [section]: { ...config[section], [field]: value } }`; a
      section the configuration lacks spreads as an empty object. */
  function ConfigChange(config: Config, section: string, field: string, value: ConfigValue): (r: Config)
    ensures section in r && field in r[section]
  {
    var oldSection := if section in config then config[section] else map[];
    config[section := oldSection[field := value]]
  }

  /** A change sets one field of one section: the other fields of that
      section and the other sections are kept, and no section disappears. */
  lemma ConfigChangeReplacesOneField(config: Config, section: string, field: string, value: ConfigValue)
    ensures var r := ConfigChange(config, section, field, value);
      && r.Keys == config.Keys + {section}
      && r[section][field] == value
      && (section in config ==> r[section].Keys == config[section].Keys + {field})
      && (section !in config ==> r[section] == map[field := value])
      && (forall f :: section in config && f in config[section] && f != field ==> r[section][f] == config[section][f])
      && (forall s :: s in config && s != section ==> r[s] == config[s])
  {
  }

  /** The later of two changes to the same field wins. */
  lemma ConfigChangeLastWins(config: Config, section: string, field: string, a: ConfigValue, b: ConfigValue)
    ensures ConfigChange(ConfigChange(config, section, field, a), section, field, b)
            == ConfigChange(config, section, field, b)
  {
    var sec := if section in config then config[section] else map[];
    assert sec[field := a][field := b] == sec[field := b];
  }

  /** Changes to different fields commute. */
  lemma ConfigChangesCommute(config: Config, section: string, field: string, a: ConfigValue,
                             section': string, field': string, b: ConfigValue)
    requires (section, field) != (section', field')
    ensures ConfigChange(ConfigChange(config, section, field, a), section', field', b)
            == ConfigChange(ConfigChange(config, section', field', b), section, field, a)
  {
    var x := ConfigChange(ConfigChange(config, section, field, a), section', field', b);
    var y := ConfigChange(ConfigChange(config, section', field', b), section, field, a);
    assert x.Keys == y.Keys;
    forall s | s in x ensures x[s] == y[s] {
      if s == section && s == section' {
        assert x[s].Keys == y[s].Keys;
      }
    }
  }

  /** Writing the value a field already holds changes nothing. */
  lemma ConfigChangeSameValue(config: Config, section: string, field: string, value: ConfigValue)
    requires section in config && field in config[section] && config[section][field] == value
    ensures ConfigChange(config, section, field, value) == config
  {
    assert config[section][field := value] == config[section];
  }

  /** `updateConfig` merges the whole new configuration, so the store ends up
      holding exactly the changed one. */
  lemma StoreHoldsChange(config: Config, section: string, field: string, value: ConfigValue)
    ensures System.MergeConfig(config, ConfigChange(config, section, field, value))
            == ConfigChange(config, section, field, value)
  {
    var c := ConfigChange(config, section, field, value);
    assert (config + c).Keys == c.Keys;
  }

  /** The provider checkbox: `handleConfigChange('ai', 'providers', ...)`
      with the one provider switched. */
  function ProviderCheckbox(config: Config, id: string, checked: bool): (r: Config)
    requires AIAssistant.HasProviders(config)
    ensures AIAssistant.HasProviders(r)
    ensures AIAssistant.ProvidersOf(r)
            == AIAssistant.SetProviderEnabled(AIAssistant.ProvidersOf(config), id, checked)
  {
    ConfigChange(config, "ai", "providers",
                 Providers(AIAssistant.SetProviderEnabled(AIAssistant.ProvidersOf(config), id, checked)))
  }

  /** Unlike the switch on the assistant page, the checkbox leaves the `ai`
      flag as it was and keeps every other field of every section. */
  lemma ProviderCheckboxKeepsFlag(config: Config, id: string, checked: bool)
    requires AIAssistant.HasProviders(config)
    ensures var r := ProviderCheckbox(config, id, checked);
      && r.Keys == config.Keys && r["ai"].Keys == config["ai"].Keys
      && (forall f :: f in config["ai"] && f != "providers" ==> r["ai"][f] == config["ai"][f])
      && (forall s :: s in config && s != "ai" ==> r[s] == config[s])
  {
  }

  /** So, from the initial configuration, turning OpenAI on with the checkbox
      leaves the assistant marked off while the assistant page's switch marks
      it on. */
  lemma CheckboxAndSwitchDisagree()
    ensures AIAssistant.HasProviders(DefaultConfig())
    ensures !AIAssistant.FlagAgrees(ProviderCheckbox(DefaultConfig(), "openai", true))
    ensures AIAssistant.FlagAgrees(AIAssistant.ToggleAIProvider(DefaultConfig(), "openai", true))
  {
    var c := DefaultConfig();
    var r := ProviderCheckbox(c, "openai", true);
    assert r["ai"]["enabled"] == Flag(false);
    assert AIAssistant.ProvidersOf(r)[0].enabled;
    AIAssistant.ToggleAIProviderEffect(c, "openai", true);
  }

  /** The screen's own state: the unsaved-changes flag. */
  class SettingsScreen {
    var hasChanges: bool

    constructor()
      ensures !hasChanges
    {
      hasChanges := false;
    }

    /** `handleConfigChange(section, field, value)`: the store holds the
        changed configuration, its lists are untouched, and the flag is up. */
    method HandleConfigChange(store: System.SystemStore, section: string, field: string, value: ConfigValue)
      modifies this, store
      ensures store.config == ConfigChange(old(store.config), section, field, value)
      ensures store.tickets == old(store.tickets) && store.users == old(store.users)
      ensures store.articles == old(store.articles) && store.departments == old(store.departments)
      ensures hasChanges
    {
      var changed := ConfigChange(store.config, section, field, value);
      StoreHoldsChange(store.config, section, field, value);
      store.UpdateConfig(changed);
      hasChanges := true;
    }

    /** A provider checkbox. */
    method ToggleProvider(store: System.SystemStore, id: string, checked: bool)
      requires AIAssistant.HasProviders(store.config)
      modifies this, store
      ensures store.config == ProviderCheckbox(old(store.config), id, checked)
      ensures store.tickets == old(store.tickets) && store.users == old(store.users)
      ensures store.articles == old(store.articles) && store.departments == old(store.departments)
      ensures hasChanges
    {
      HandleConfigChange(store, "ai", "providers",
                         Providers(AIAssistant.SetProviderEnabled(AIAssistant.ProvidersOf(store.config), id, checked)));
    }

    /** `saveChanges`: lowers the flag; nothing is written anywhere. */
    method SaveChanges()
      modifies this
      ensures !hasChanges
    {
      hasChanges := false;
    }
  }
}
