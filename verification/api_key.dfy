/**
 * The key form of components/ApiKeyModal.tsx: two fields, the typed key and
 * the error line, changed by typing and by submitting.
 */
module ApiKey {
  import opened Types

  /** The shortest key the form passes on. */
  const MIN_KEY_LENGTH := 20
  const KEY_ERROR := "Please enter a valid Gemini API key."

  /** The test handleSubmit applies: key.length is not below 20. */
  predicate Accepted(key: string): (r: bool)
    ensures |key| >= MIN_KEY_LENGTH ==> r
    ensures 2 * |key| < MIN_KEY_LENGTH ==> !r
  {
    Utf16Length(key) >= MIN_KEY_LENGTH
  }

  /** For keys within the Basic Multilingual Plane, 20 characters pass and 19 do not. */
  lemma AcceptanceBoundary(key: string)
    requires forall i :: 0 <= i < |key| ==> key[i] as int <= 0xFFFF
    ensures Accepted(key) <==> |key| >= MIN_KEY_LENGTH
    ensures |key| == 20 ==> Accepted(key)
    ensures |key| == 19 ==> !Accepted(key)
  {
  }

  /** Ten characters from beyond U+FFFF make a key of length 20, which passes. */
  lemma AstralKeyAccepted()
    ensures var key := seq(10, _ => '\U{1F600}'); |key| == 10 && Accepted(key)
  {
    var key := seq(10, _ => '\U{1F600}');
    assert forall i :: 0 <= i < |key| ==> key[i] as int > 0xFFFF;
    AstralLength(key);
  }

  class ApiKeyForm {
    var key: string
    /** The error line; "" shows nothing. */
    var error: string

    constructor ()
      ensures key == "" && error == ""
    {
      key, error := "", "";
    }

    /** The input's onChange: the new text replaces the key and any error clears. */
    method OnChange(value: string)
      modifies this
      ensures key == value && error == ""
    {
      key := value;
      error := "";
    }

    /**
     * handleSubmit: a short key sets the error and submits nothing; a long
     * enough one is handed to onSubmit exactly as typed.  The key text stays.
     */
    method Submit() returns (submitted: Option<string>)
      modifies this
      ensures key == old(key)
      ensures submitted.Some? <==> Accepted(key)
      ensures submitted.Some? ==> submitted.value == key && error == old(error)
      ensures submitted.None? ==> error == KEY_ERROR
    {
      if Utf16Length(key) < MIN_KEY_LENGTH {
        error := KEY_ERROR;
        return None;
      }
      return Some(key);
    }
  }
}
