/**
 * The image generator (components/ImageGenerator.tsx): the prompt check,
 * the affordability gate, the debit made before the provider is called,
 * and how the provider's outcome is shown. The provider is not modelled;
 * its outcome is an input.
 */
module Generator {
  import opened Wrappers
  import opened Types
  import opened Text
  import opened Ledger
  import opened AppRoot

  const UPSELL_MESSAGE: string := "Your credits are finished. Please upgrade your plan."
  const GENERATION_FAILED: string := "Failed to generate image. Please try again."

  /** How the provider call settles: an image reference, or an error with an optional message. */
  datatype ProviderOutcome = Produced(image: string) | Failed(message: Option<string>)

  /** `err.message || fallback`: the provider's message unless it is missing or empty. */
  function FailureMessage(message: Option<string>): (r: string)
    ensures r != ""
    ensures message.Some? && message.value != "" ==> r == message.value
    ensures message.None? || message.value == "" ==> r == GENERATION_FAILED
  {
    if message.Some? && message.value != "" then message.value else GENERATION_FAILED
  }

  /** The calls `handleGenerate` makes outside the component, in the order made. */
  datatype Effect = Upsold(message: string) | Debited | Invoked(prompt: string)

  class ImageGenerator {
    var prompt: string
    var isLoading: bool
    var image: Option<string>
    var error: Option<string>
    /** Every outside call made so far. */
    ghost var effects: seq<Effect>

    constructor ()
      ensures prompt == "" && !isLoading && image == None && error == None && effects == []
    {
      prompt := "";
      isLoading := false;
      image := None;
      error := None;
      effects := [];
    }

    /** The prompt field's `onChange`. */
    method EditPrompt(value: string)
      modifies this
      ensures prompt == value
      ensures isLoading == old(isLoading) && image == old(image) && error == old(error) && effects == old(effects)
    {
      prompt := value;
    }

    /** The generate button is disabled while loading or while the prompt is blank. */
    predicate GenerateDisabled(): (b: bool)
      reads this
      ensures b <==> isLoading || AllWhitespace(prompt)
    {
      BlankIffAllWhitespace(prompt);
      isLoading || IsBlank(prompt)
    }

    /**
     * `handleGenerate` up to its `await`: a blank prompt does nothing; an
     * unaffordable request opens the upsell and debits nothing; otherwise
     * the previous result is cleared, loading starts, and exactly one credit
     * is debited before the provider is invoked with the prompt.
     */
    method StartGenerate(app: App) returns (invoked: bool)
      requires app.Valid()
      modifies this, app, app.storage
      ensures prompt == old(prompt) && app.Valid()
      ensures IsBlank(prompt) ==> !invoked && unchanged(this) && unchanged(app) && unchanged(app.storage)
      ensures !IsBlank(prompt) && !old(app.CanGenerate()) ==>
        && !invoked
        && isLoading == old(isLoading) && image == old(image) && error == old(error)
        && effects == old(effects) + [Upsold(UPSELL_MESSAGE)]
        && app.isSubscriptionOpen && app.subscriptionMessage == Some(UPSELL_MESSAGE)
        && app.user == old(app.user) && app.credits == old(app.credits)
        && app.isGiftOpen == old(app.isGiftOpen) && app.isInitialized == old(app.isInitialized)
        && unchanged(app.storage)
      ensures !IsBlank(prompt) && old(app.CanGenerate()) ==>
        && invoked
        && isLoading && image == None && error == None
        && effects == old(effects) + [Debited, Invoked(prompt)]
        && old(app.user).Some?
        && app.user == Some(Debit(old(app.user).value))
        && app.credits == old(app.credits) - COST_PER_IMAGE
        && app.storage.users == Persist(old(app.storage.users), app.user.value)
        && app.storage.currentUser == old(app.storage.currentUser)
        && app.SameFlags()
      ensures old(app.Consistent()) ==> app.Consistent()
      ensures old(app.Solvent()) ==> app.Solvent()
    {
      if IsBlank(prompt) {
        return false;
      }
      if !app.CanGenerate() {
        RefuseUnaffordable(app);
        assert unchanged(app.storage);
        return false;
      }
      BeginAttempt(app);
      assert old(app.user).Some? && app.user == Some(Debit(old(app.user).value));
      invoked := true;
    }

    /** The gate's refusal: the upsell opens with its message and nothing is debited. */
    method RefuseUnaffordable(app: App)
      modifies this, app
      ensures prompt == old(prompt) && isLoading == old(isLoading) && image == old(image) && error == old(error)
      ensures effects == old(effects) + [Upsold(UPSELL_MESSAGE)]
      ensures app.isSubscriptionOpen && app.subscriptionMessage == Some(UPSELL_MESSAGE)
      ensures app.user == old(app.user) && app.credits == old(app.credits)
      ensures app.isGiftOpen == old(app.isGiftOpen) && app.isInitialized == old(app.isInitialized)
      ensures old(app.Valid()) ==> app.Valid()
      ensures old(app.Consistent()) ==> app.Consistent()
      ensures old(app.Solvent()) ==> app.Solvent()
    {
      app.OpenSubscription(Some(UPSELL_MESSAGE));
      effects := effects + [Upsold(UPSELL_MESSAGE)];
    }

    /** An affordable attempt: clear the last result, start loading, debit, then invoke the provider. */
    method BeginAttempt(app: App)
      requires app.Valid() && app.CanGenerate()
      modifies this, app, app.storage
      ensures prompt == old(prompt) && isLoading && image == None && error == None
      ensures effects == old(effects) + [Debited, Invoked(prompt)]
      ensures old(app.user).Some? && app.user == Some(Debit(old(app.user).value))
      ensures app.credits == old(app.credits) - COST_PER_IMAGE
      ensures app.storage.users == Persist(old(app.storage.users), app.user.value)
      ensures app.storage.currentUser == old(app.storage.currentUser)
      ensures app.SameFlags() && app.Valid()
      ensures old(app.Consistent()) ==> app.Consistent()
      ensures old(app.Solvent()) ==> app.Solvent()
    {
      isLoading := true;
      error := None;
      image := None;
      app.ConsumeCredit();
      effects := effects + [Debited];
      effects := effects + [Invoked(prompt)];
    }

    /**
     * `handleGenerate` after its `await`: the image on success, the error
     * message on failure, and loading stops either way. The root component
     * is not touched, so a debited credit is never refunded.
     */
    method FinishGenerate(outcome: ProviderOutcome)
      modifies this
      ensures !isLoading && prompt == old(prompt) && effects == old(effects)
      ensures outcome.Produced? ==> image == Some(outcome.image) && error == old(error)
      ensures outcome.Failed? ==> error == Some(FailureMessage(outcome.message)) && image == old(image)
    {
      isLoading := false;
      match outcome
      case Produced(result) =>
        image := Some(result);
      case Failed(message) =>
        error := Some(FailureMessage(message));
    }

    /** The whole of `handleGenerate`, with `outcome` standing for however the provider call settles. */
    method Generate(app: App, outcome: ProviderOutcome) returns (invoked: bool)
      requires app.Valid()
      modifies this, app, app.storage
      ensures prompt == old(prompt) && !isLoading == (invoked || !old(isLoading)) && app.Valid()
      ensures invoked <==> !IsBlank(prompt) && old(app.CanGenerate())
      ensures !invoked ==> image == old(image) && error == old(error) && isLoading == old(isLoading)
      ensures !invoked ==> app.user == old(app.user) && unchanged(app.storage)
      ensures !invoked ==> app.isGiftOpen == old(app.isGiftOpen) && app.isInitialized == old(app.isInitialized)
      ensures IsBlank(prompt) ==> unchanged(this) && unchanged(app) && unchanged(app.storage)
      ensures !IsBlank(prompt) && !old(app.CanGenerate()) ==>
        && effects == old(effects) + [Upsold(UPSELL_MESSAGE)]
        && app.isSubscriptionOpen && app.subscriptionMessage == Some(UPSELL_MESSAGE)
      ensures app.storage.currentUser == old(app.storage.currentUser)
      ensures invoked ==>
        && app.SameFlags()
        && effects == old(effects) + [Debited, Invoked(prompt)]
        && app.user == Some(Debit(old(app.user).value))
        && app.credits == old(app.credits) - COST_PER_IMAGE
        && app.storage.users == Persist(old(app.storage.users), app.user.value)
      ensures invoked && outcome.Produced? ==> image == Some(outcome.image) && error == None
      ensures invoked && outcome.Failed? ==> image == None && error == Some(FailureMessage(outcome.message))
      ensures old(app.Consistent()) ==> app.Consistent()
      ensures old(app.Solvent()) ==> app.Solvent()
    {
      invoked := StartGenerate(app);
      if invoked {
        FinishGenerate(outcome);
      }
    }
  }
}
