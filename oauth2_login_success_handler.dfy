/** The sign-in of security/OAuth2LoginSuccessHandler.java: the email and
    display name read from the provider's attributes, and finding or creating
    the local user. Issuing the token and building the redirect are not part
    of this model. */
module OAuth2LoginSuccessHandler {

  import opened Wrappers
  import opened Users

  const DefaultRole := "ROLE_EMPLOYEE"
  const GithubDomain := "@github.com"

  /** `getEmailFromOAuth2User`. */
  function EmailOf(attributes: map<string, string>): (r: Result<string, string>)
    ensures "email" in attributes ==> r == Success(attributes["email"])
    ensures "email" !in attributes && "login" in attributes ==> r == Success(attributes["login"] + GithubDomain)
    ensures r.Failure? <==> "email" !in attributes && "login" !in attributes
    ensures r.Failure? ==> r.error == "Email not found from OAuth2 provider"
  {
    if "email" in attributes then Success(attributes["email"])
    else if "login" in attributes then Success(attributes["login"] + GithubDomain)
    else Failure("Email not found from OAuth2 provider")
  }

  /** `getNameFromOAuth2User`: "name", then "login", then "email". */
  function NameOf(attributes: map<string, string>): (r: string)
    ensures r in attributes.Values || r == "Unknown User"
    ensures "name" in attributes ==> r == attributes["name"]
    ensures "name" !in attributes && "login" in attributes ==> r == attributes["login"]
    ensures "name" !in attributes && "login" !in attributes && "email" in attributes ==> r == attributes["email"]
    ensures "name" !in attributes && "login" !in attributes && "email" !in attributes ==> r == "Unknown User"
  {
    if "name" in attributes then attributes["name"]
    else if "login" in attributes then attributes["login"]
    else if "email" in attributes then attributes["email"]
    else "Unknown User"
  }

  /** Whenever an email is found, the name is one of the provider's values. */
  lemma NameComesFromProvider(attributes: map<string, string>)
    requires EmailOf(attributes).Success?
    ensures NameOf(attributes) in attributes.Values
  {
    if "name" in attributes {
      assert attributes["name"] in attributes.Values;
    } else if "login" in attributes {
      assert attributes["login"] in attributes.Values;
    } else {
      assert attributes["email"] in attributes.Values;
    }
  }

  /** `onAuthenticationSuccess` up to the user record: the user with the
      provider's email, created with the default role when there is none. */
  method OnAuthenticationSuccess(repo: UserRepository, attributes: map<string, string>) returns (r: Result<User, string>)
    requires repo.Valid()
    modifies repo
    ensures repo.Valid() && repo.roles == old(repo.roles)
    ensures EmailOf(attributes).Failure? ==> r == Failure(EmailOf(attributes).error) && repo.users == old(repo.users)
    ensures EmailOf(attributes).Success? && IndexOfEmail(old(repo.users), EmailOf(attributes).value).Some? ==>
              r == Success(old(repo.users)[IndexOfEmail(old(repo.users), EmailOf(attributes).value).value])
              && repo.users == old(repo.users)
    ensures EmailOf(attributes).Success? && IndexOfEmail(old(repo.users), EmailOf(attributes).value).None? ==>
              if DefaultRole !in old(repo.roles) then
                r == Failure("Default role not found") && repo.users == old(repo.users)
              else
                r == Success(User(old(repo.nextId), EmailOf(attributes).value, NameOf(attributes), DefaultRole))
                && repo.users == old(repo.users) + [r.value]
    ensures r.Success? ==> r.value.email == EmailOf(attributes).value
                           && IndexOfEmail(repo.users, r.value.email).Some?
                           && repo.users[IndexOfEmail(repo.users, r.value.email).value] == r.value
  {
    var email := EmailOf(attributes);
    if email.Failure? {
      return Failure(email.error);
    }
    var name := NameOf(attributes);
    var found := IndexOfEmail(repo.users, email.value);
    if found.Some? {
      return Success(repo.users[found.value]);
    }
    r := CreateNewUser(repo, email.value, name);
  }

  /** `createNewUser`: a new user with the default role. */
  method CreateNewUser(repo: UserRepository, email: string, name: string) returns (r: Result<User, string>)
    requires repo.Valid() && IndexOfEmail(repo.users, email).None?
    modifies repo
    ensures repo.Valid() && repo.roles == old(repo.roles)
    ensures DefaultRole !in old(repo.roles) ==> r == Failure("Default role not found") && repo.users == old(repo.users)
    ensures DefaultRole in old(repo.roles) ==>
              r == Success(User(old(repo.nextId), email, name, DefaultRole))
              && repo.users == old(repo.users) + [r.value]
              && IndexOfEmail(repo.users, email) == Some(|old(repo.users)|)
  {
    if DefaultRole !in repo.roles {
      return Failure("Default role not found");
    }
    var u := repo.Insert(email, name, DefaultRole);
    r := Success(u);
  }
}
