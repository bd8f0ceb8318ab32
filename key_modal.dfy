/** The key-entry dialog: its `key` input field, the prefill on opening, and saving. */
module KeyModal {
  import opened Wrappers
  import opened Text
  import Gemini

  /** What saving does, in order: the write to storage and the two callbacks. */
  datatype ModalStep = StoreKey(key: string) | KeySaved(key: string) | Closed

  /** Save is disabled exactly when the input is blank after trimming. */
  predicate SaveDisabled(key: string) {
    Trim(key) == ""
  }

  /** Saving is enabled exactly when the input has a character that is not white space. */
  lemma SaveEnabledIffNotBlank(key: string)
    ensures !SaveDisabled(key) <==> !AllSpace(key)
  {
    TrimEmptyIffAllSpace(key);
  }

  class ApiKeyModal {
    var key: string
    const keys: Gemini.KeyStore

    constructor (keys: Gemini.KeyStore)
      ensures key == "" && this.keys == keys
    {
      key := "";
      this.keys := keys;
    }

    /** The input's `onChange`. */
    method Input(text: string)
      modifies this`key
      ensures key == text
    {
      key := text;
    }

    /** The effect on `open`: when the dialog opens, a resolved key (not the empty string) replaces
        the input; otherwise the input is kept. */
    method OpenChanged(open: bool)
      modifies this`key
      ensures var k := keys.GetStoredApiKey();
        key == if open && Truthy(k) then k.value else old(key)
    {
      if open {
        var stored := keys.GetStoredApiKey();
        if Truthy(stored) {
          key := stored.value;
        }
      }
    }

    /** `handleSave`: a blank input does nothing; otherwise the trimmed input is stored and then
        handed to `onKeySaved`, and then `onClose` runs. */
    method HandleSave(writeOk: bool) returns (steps: seq<ModalStep>)
      modifies keys
      ensures var t := Trim(key);
        if SaveDisabled(key) then steps == [] && keys.stored == old(keys.stored)
        else && steps == [StoreKey(t), KeySaved(t), Closed]
             && keys.stored == (if writeOk then Some(t) else old(keys.stored))
    {
      var trimmed := Trim(key);
      if trimmed == "" {
        return [];
      }
      keys.StoreApiKey(trimmed, writeOk);
      steps := [StoreKey(trimmed), KeySaved(trimmed), Closed];
    }
  }
}
