/**
 * The Orb of Awakening (typeclasses/artifacts.py): picking it up awakens an
 * LLM-driven NPC (full autonomy, personality growth, a running ticker), dropping
 * it puts the NPC back to low autonomy without growth.
 */
module Artifacts {
  import opened Text
  import opened LlmCharacter

  const OrbKey := "Orb of Awakening"
  const OrbDesc := "A glowing orb that seems to hum with potential."

  /** The tick interval an awakened NPC gets when its ticker was off. */
  const AwakenedInterval: nat := 60

  /** `OrbOfAwakening`: an object with a key and a description. */
  class OrbOfAwakening {
    var key: string
    var desc: string

    /** `at_object_creation`: the Orb's name and description. */
    constructor ()
      ensures key == OrbKey && desc == OrbDesc
    {
      key := OrbKey;
      desc := OrbDesc;
    }

    /**
     * `at_get`: an LLM-enabled getter is awakened: high autonomy, growth on, and,
     * when its ticker was off (interval 0), an interval of 60 with a ticker started.
     * A getter without the LLM keeps every attribute. Once awakened, the NPC's
     * system prompt invites it to rewrite its persona.
     */
    method AtGet(getter: LLMCharacter)
      modifies getter`autonomyLevel, getter`personalityGrowth, getter`autoActInterval, getter`tickers
      ensures !old(getter.llmEnabled) ==>
                getter.autonomyLevel == old(getter.autonomyLevel) && getter.personalityGrowth == old(getter.personalityGrowth)
                && getter.autoActInterval == old(getter.autoActInterval) && getter.tickers == old(getter.tickers)
      ensures old(getter.llmEnabled) ==> getter.autonomyLevel == High && getter.personalityGrowth
      ensures old(getter.llmEnabled) && old(getter.autoActInterval) == 0 ==>
                getter.autoActInterval == AwakenedInterval && getter.tickers == old(getter.tickers) + {AwakenedInterval}
      ensures old(getter.llmEnabled) && old(getter.autoActInterval) != 0 ==>
                getter.autoActInterval == old(getter.autoActInterval) && getter.tickers == old(getter.tickers)
      ensures getter.llmEnabled ==> Contains(SystemPrompt(getter.npcPrompt, getter.personalityGrowth), Marker)
    {
      if getter.llmEnabled {
        getter.autonomyLevel := High;
        getter.personalityGrowth := true;
        if getter.autoActInterval == 0 {
          getter.autoActInterval := AwakenedInterval;
          getter.StartTicker();
        }
      }
    }

    /**
     * `at_drop`: an LLM-enabled dropper goes back to low autonomy without growth;
     * its tick interval is left as it is. A dropper without the LLM keeps every attribute.
     */
    method AtDrop(dropper: LLMCharacter)
      modifies dropper`autonomyLevel, dropper`personalityGrowth
      ensures !old(dropper.llmEnabled) ==>
                dropper.autonomyLevel == old(dropper.autonomyLevel) && dropper.personalityGrowth == old(dropper.personalityGrowth)
      ensures old(dropper.llmEnabled) ==> dropper.autonomyLevel == Low && !dropper.personalityGrowth
      ensures SystemPrompt(dropper.npcPrompt, dropper.personalityGrowth) == dropper.npcPrompt || !dropper.llmEnabled
    {
      if dropper.llmEnabled {
        dropper.autonomyLevel := Low;
        dropper.personalityGrowth := false;
      }
    }
  }
}
