/**
 * `useLoginForm`: the login form's fields and flags, the submit handler that
 * raises `isLoading` around the call to `login`, and the redirect of an
 * already signed-in user to `/chat`.
 */
module UseLoginForm {
  import opened Wrappers
  import opened Navigation
  import opened AuthContext

  const LoginErrorMessage: string := "Invalid email or password. Please try again."

  /** `!isInitialized || !!user`: the page shows a spinner instead of the form. */
  function IsAuthenticating(isInitialized: bool, user: Option<User>): bool {
    !isInitialized || user.Some?
  }

  /** The effect's condition `isInitialized && user`. */
  function ShouldRedirect(isInitialized: bool, user: Option<User>): bool {
    isInitialized && user.Some?
  }

  /** The form is shown exactly when the provider is initialised and nobody is signed in, so never while redirecting. */
  lemma FormShownIffIdle(isInitialized: bool, user: Option<User>)
    ensures !IsAuthenticating(isInitialized, user) <==> isInitialized && user.None?
    ensures ShouldRedirect(isInitialized, user) ==> IsAuthenticating(isInitialized, user)
  {
  }

  class LoginForm {
    const auth: AuthProvider
    var email: string
    var password: string
    var error: string
    var isLoading: bool
    /** `(error, isLoading)` as they stood each time `login` was called. */
    ghost var flagsAtLogin: seq<(string, bool)>

    constructor (auth: AuthProvider)
      ensures this.auth == auth
      ensures email == "" && password == "" && error == "" && !isLoading && flagsAtLogin == []
    {
      this.auth := auth;
      email, password, error, isLoading := "", "", "", false;
      flagsAtLogin := [];
    }

    method SetEmail(value: string)
      modifies this
      ensures email == value && password == old(password) && error == old(error) && isLoading == old(isLoading)
      ensures flagsAtLogin == old(flagsAtLogin)
    {
      email := value;
    }

    method SetPassword(value: string)
      modifies this
      ensures password == value && email == old(email) && error == old(error) && isLoading == old(isLoading)
      ensures flagsAtLogin == old(flagsAtLogin)
    {
      password := value;
    }

    /** The `isAuthenticating` the hook returns. */
    function Authenticating(): (b: bool)
      reads this, auth
      ensures b <==> !auth.isInitialized || auth.user.Some?
    {
      IsAuthenticating(auth.isInitialized, auth.user)
    }

    /** The redirect effect, run whenever `user` or `isInitialized` changes. */
    method RedirectIfSignedIn()
      modifies auth.router
      ensures auth.router.pushed == old(auth.router.pushed) + (if ShouldRedirect(auth.isInitialized, auth.user) then ["/chat"] else [])
    {
      if auth.isInitialized && auth.user.Some? {
        auth.router.Push("/chat");
      }
    }

    /** `handleLogin`: clear the error, raise `isLoading`, call `login`, report a failure, lower `isLoading`. */
    method HandleLogin()
      modifies this, auth, auth.router
      ensures flagsAtLogin == old(flagsAtLogin) + [("", true)]
      ensures !isLoading
      ensures email == old(email) && password == old(password)
      ensures var ok := email == "test@example.com" && password == "password123";
        (ok ==> error == "" && auth.user == Some(TestUser) && Authenticating()
                && auth.storage == old(auth.storage)[UserKey := Serialized(TestUser)] && auth.Synced()
                && auth.router.pushed == old(auth.router.pushed) + ["/chat"])
        && (!ok ==> error == LoginErrorMessage && auth.user == old(auth.user) && auth.storage == old(auth.storage)
                    && auth.router.pushed == old(auth.router.pushed))
      ensures auth.isInitialized == old(auth.isInitialized)
    {
      error := "";
      isLoading := true;
      flagsAtLogin := flagsAtLogin + [(error, isLoading)];
      var failure := auth.Login(email, password);
      if failure.Some? {
        error := LoginErrorMessage;
      }
      isLoading := false;
    }
  }
}
