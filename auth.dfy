/**
 * Authentication state: the seven-field login form with its focus cycle and per-field text
 * editing, and the display name of the signed-in user.
 */
module Auth {
  import opened Wrappers
  import opened Text

  const LOGIN_FIELDS: nat := 7

  /** The login form field under edit, in focus order. */
  datatype LoginField =
    | ApiKey | Secret | Passphrase | Address
    | SessionCookie | SessionNonce | SessionAuthType
  {
    /** The position of this field in the focus order. */
    function Index(): (i: nat)
      ensures i < LOGIN_FIELDS
    {
      match this
      case ApiKey => 0
      case Secret => 1
      case Passphrase => 2
      case Address => 3
      case SessionCookie => 4
      case SessionNonce => 5
      case SessionAuthType => 6
    }

    /** `next`: the following field, wrapping from the last to the first. */
    function Next(): (r: LoginField)
      ensures r.Index() == (Index() + 1) % LOGIN_FIELDS
    {
      match this
      case ApiKey => Secret
      case Secret => Passphrase
      case Passphrase => Address
      case Address => SessionCookie
      case SessionCookie => SessionNonce
      case SessionNonce => SessionAuthType
      case SessionAuthType => ApiKey
    }

    /** `prev`: the preceding field, wrapping from the first to the last. */
    function Prev(): (r: LoginField)
      ensures r.Index() == (Index() + LOGIN_FIELDS - 1) % LOGIN_FIELDS
    {
      match this
      case ApiKey => SessionAuthType
      case Secret => ApiKey
      case Passphrase => Secret
      case Address => Passphrase
      case SessionCookie => Address
      case SessionNonce => SessionCookie
      case SessionAuthType => SessionNonce
    }
  }

  lemma FieldIndexInjective(a: LoginField, b: LoginField)
    ensures a.Index() == b.Index() ==> a == b
  {
  }

  /** `prev` and `next` undo each other on every field. */
  lemma NextPrevInverse(f: LoginField)
    ensures f.Next().Prev() == f
    ensures f.Prev().Next() == f
  {
    FieldIndexInjective(f.Next().Prev(), f);
    FieldIndexInjective(f.Prev().Next(), f);
  }

  /** The field `k` steps of `next` away from `f`. */
  function NextN(f: LoginField, k: nat): LoginField
  {
    if k == 0 then f else NextN(f, k - 1).Next()
  }

  lemma {:induction false} NextNIndex(f: LoginField, k: nat)
    ensures NextN(f, k).Index() == (f.Index() + k) % LOGIN_FIELDS
  {
    if k > 0 {
      NextNIndex(f, k - 1);
    }
  }

  /** `next` is a cycle of length seven: seven steps return to the start and no fewer do. */
  lemma SevenCycle(f: LoginField)
    ensures NextN(f, LOGIN_FIELDS) == f
    ensures forall k | 0 < k < LOGIN_FIELDS :: NextN(f, k) != f
  {
    NextNIndex(f, LOGIN_FIELDS);
    FieldIndexInjective(NextN(f, LOGIN_FIELDS), f);
    forall k | 0 < k < LOGIN_FIELDS
      ensures NextN(f, k) != f
    {
      NextNIndex(f, k);
    }
  }

  /** The session authentication type the form starts with. */
  const DEFAULT_AUTH_TYPE: string := "magic"

  /** `LoginFormState`: the API credentials and optional session cookie being entered. */
  class LoginFormState {
    var apiKey: string
    var secret: string
    var passphrase: string
    var address: string
    var sessionCookie: string
    var sessionNonce: string
    var sessionAuthType: string
    var activeField: LoginField
    var errorMessage: Option<string>
    var isValidating: bool

    /** The text of field `f`. */
    function FieldValue(f: LoginField): string
      reads this
    {
      match f
      case ApiKey => apiKey
      case Secret => secret
      case Passphrase => passphrase
      case Address => address
      case SessionCookie => sessionCookie
      case SessionNonce => sessionNonce
      case SessionAuthType => sessionAuthType
    }

    /** `get_active_field_value`: the text of the field under edit. */
    function ActiveFieldValue(): string
      reads this
    {
      FieldValue(activeField)
    }

    /** The blank form: every field empty except the auth type, which is "magic". */
    predicate IsBlank()
      reads this
    {
      && (forall f :: f != SessionAuthType ==> FieldValue(f) == [])
      && sessionAuthType == DEFAULT_AUTH_TYPE
      && activeField == ApiKey && errorMessage == None && !isValidating
    }

    /** `new`: the blank form with the API key focused. */
    constructor ()
      ensures IsBlank()
    {
      apiKey, secret, passphrase, address := [], [], [], [];
      sessionCookie, sessionNonce := [], [];
      sessionAuthType := DEFAULT_AUTH_TYPE;
      activeField := ApiKey;
      errorMessage := None;
      isValidating := false;
    }

    /** Replace the text of the field under edit by `v`, leaving the other six. */
    method SetActiveField(v: string)
      modifies this`apiKey, this`secret, this`passphrase, this`address,
        this`sessionCookie, this`sessionNonce, this`sessionAuthType
      ensures ActiveFieldValue() == v
      ensures forall f :: f != activeField ==> FieldValue(f) == old(FieldValue(f))
    {
      match activeField {
        case ApiKey => apiKey := v;
        case Secret => secret := v;
        case Passphrase => passphrase := v;
        case Address => address := v;
        case SessionCookie => sessionCookie := v;
        case SessionNonce => sessionNonce := v;
        case SessionAuthType => sessionAuthType := v;
      }
    }

    /** `add_char`: append to the field under edit, leave the other six, clear the error. */
    method AddChar(c: char)
      modifies this`apiKey, this`secret, this`passphrase, this`address,
        this`sessionCookie, this`sessionNonce, this`sessionAuthType, this`errorMessage
      ensures ActiveFieldValue() == old(ActiveFieldValue()) + [c]
      ensures forall f :: f != activeField ==> FieldValue(f) == old(FieldValue(f))
      ensures errorMessage == None
    {
      SetActiveField(ActiveFieldValue() + [c]);
      errorMessage := None;
    }

    /**
     * `delete_char`: drop the last character of the field under edit (nothing when it is
     * empty), leave the other six, clear the error.
     */
    method DeleteChar()
      modifies this`apiKey, this`secret, this`passphrase, this`address,
        this`sessionCookie, this`sessionNonce, this`sessionAuthType, this`errorMessage
      ensures ActiveFieldValue() == DropLast(old(ActiveFieldValue()))
      ensures forall f :: f != activeField ==> FieldValue(f) == old(FieldValue(f))
      ensures errorMessage == None
    {
      SetActiveField(DropLast(ActiveFieldValue()));
      errorMessage := None;
    }

    /** `clear`: back to the blank form. */
    method Clear()
      modifies this
      ensures IsBlank()
    {
      apiKey, secret, passphrase, address := [], [], [], [];
      sessionCookie, sessionNonce := [], [];
      sessionAuthType := DEFAULT_AUTH_TYPE;
      activeField := ApiKey;
      errorMessage := None;
      isValidating := false;
    }
  }

  /** Profile details of the signed-in user. */
  datatype UserProfile = UserProfile(
    name: Option<string>,
    pseudonym: Option<string>,
    bio: Option<string>,
    profileImage: Option<string>)

  /** `AuthState`: whether a user is signed in, who, and their account figures. */
  datatype AuthState = AuthState(
    isAuthenticated: bool,
    username: Option<string>,
    address: Option<string>,
    balance: Option<real>,
    portfolioValue: Option<real>,
    positionsCount: Option<nat>,
    unrealizedPnl: Option<real>,
    realizedPnl: Option<real>,
    profile: Option<UserProfile>)
  {
    /** `display_name`: the user name, else the wallet address, else "Unknown". */
    function DisplayName(): (r: string)
      ensures username.Some? ==> r == username.value
      ensures username.None? && address.Some? ==> r == address.value
      ensures username.None? && address.None? ==> r == "Unknown"
    {
      if username.Some? then username.value
      else if address.Some? then address.value
      else "Unknown"
    }
  }
}
