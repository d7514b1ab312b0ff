/**
 * The mock session (`UserProvider`): at most one signed-in user, chosen by
 * two hard-coded credential pairs, mirrored to the `"user"` key of local
 * storage. The credential check, the role queries, the load rule and the
 * mirror rule are functions; the provider is a class whose `user` field
 * `login` and `logout` replace.
 */
module UserContext {
  import opened Wrappers
  import opened LocalStorage

  datatype Role = Admin | Customer

  datatype User = User(id: int, name: string, email: string, role: Role)

  const UserKey: string := "user"

  const AdminEmail: string := "admin@ecommerce.com"
  const AdminPassword: string := "admin123"
  const CustomerEmail: string := "customer@ecommerce.com"
  const CustomerPassword: string := "customer123"

  const AdminUser: User := User(1, "Admin User", AdminEmail, Admin)
  const CustomerUser: User := User(2, "Customer User", CustomerEmail, Customer)

  /** The decision inside `login`: the admin pair selects the admin user,
      the customer pair the customer user, anything else nobody. */
  function Authenticate(email: string, password: string): (r: Option<User>)
    ensures r == Some(AdminUser) <==> email == AdminEmail && password == AdminPassword
    ensures r == Some(CustomerUser) <==> email == CustomerEmail && password == CustomerPassword
    ensures r.None? <==> !(email == AdminEmail && password == AdminPassword)
                         && !(email == CustomerEmail && password == CustomerPassword)
    ensures r.Some? ==> r.value.email == email
  {
    if email == AdminEmail && password == AdminPassword then Some(AdminUser)
    else if email == CustomerEmail && password == CustomerPassword then Some(CustomerUser)
    else None
  }

  /** `user !== null`. */
  predicate IsAuthenticated(user: Option<User>)
    ensures IsAuthenticated(user) <==> user.Some? && (user.value.role == Admin || user.value.role == Customer)
  {
    assert user.Some? ==> user.value.role.Admin? || user.value.role.Customer?;
    user.Some?
  }

  /** `user?.role === 'admin'`: only a present user can be an admin. */
  predicate IsAdmin(user: Option<User>)
    ensures IsAdmin(user) ==> IsAuthenticated(user)
  {
    user.Some? && user.value.role == Admin
  }

  /** The load effect: a non-empty saved value that parses gives the parsed
      user; an absent key, an empty value or a parse failure leaves nobody
      signed in. */
  function LoadedUser(items: map<string, string>, decode: string -> Option<User>): (r: Option<User>)
    ensures UserKey !in items ==> r.None?
    ensures UserKey in items && items[UserKey] == "" ==> r.None?
    ensures UserKey in items && items[UserKey] != "" ==> r == decode(items[UserKey])
    ensures UserKey in items && decode(items[UserKey]).None? ==> r.None?
    ensures r.Some? ==> UserKey in items && decode(items[UserKey]) == r
  {
    if UserKey in items && items[UserKey] != "" then decode(items[UserKey]) else None
  }

  /** The mirror effect: a present user is written under `"user"`, no user
      removes the key; every other key is kept. */
  function Mirrored(items: map<string, string>, user: Option<User>, encode: User -> string)
    : (r: map<string, string>)
    ensures UserKey in r <==> user.Some?
    ensures user.Some? ==> r[UserKey] == encode(user.value)
    ensures forall k :: k != UserKey ==> (k in r <==> k in items)
    ensures forall k :: k != UserKey && k in r ==> r[k] == items[k]
  {
    if user.Some? then items[UserKey := encode(user.value)] else items - {UserKey}
  }

  /** Signed in means signed in with one of the two roles. */
  lemma SignedInRoles(user: Option<User>)
    ensures IsAuthenticated(user) <==> IsAdmin(user) || (user.Some? && user.value.role == Customer)
    ensures !IsAuthenticated(user) ==> !IsAdmin(user)
  {
  }

  /** A parse failure on load leaves nobody signed in and removes the key. */
  lemma LoadFailureSignsOut(items: map<string, string>, decode: string -> Option<User>, encode: User -> string)
    requires UserKey in items && decode(items[UserKey]).None?
    ensures !IsAuthenticated(LoadedUser(items, decode))
    ensures UserKey !in Mirrored(items, LoadedUser(items, decode), encode)
  {
  }

  /** A saved session survives a reload, provided parsing inverts serialising. */
  lemma ReloadRestoresUser(items: map<string, string>, u: User,
                           encode: User -> string, decode: string -> Option<User>)
    requires encode(u) != "" && decode(encode(u)) == Some(u)
    ensures LoadedUser(Mirrored(items, Some(u), encode), decode) == Some(u)
  {
  }

  /** The admin pair signs in user 1 with the admin role; the customer pair
      signs in user 2 with the customer role. */
  lemma KnownCredentials()
    ensures Authenticate(AdminEmail, AdminPassword) == Some(AdminUser)
    ensures AdminUser.id == 1 && IsAdmin(Some(AdminUser))
    ensures Authenticate(CustomerEmail, CustomerPassword) == Some(CustomerUser)
    ensures CustomerUser.id == 2 && IsAuthenticated(Some(CustomerUser)) && !IsAdmin(Some(CustomerUser))
  {
  }

  /** A wrong password for a known email signs nobody in. */
  lemma WrongPasswordRejected(email: string, password: string)
    requires email == AdminEmail || email == CustomerEmail
    requires email == AdminEmail ==> password != AdminPassword
    requires email == CustomerEmail ==> password != CustomerPassword
    ensures Authenticate(email, password).None?
  {
  }

  class UserProvider {
    var user: Option<User>
    const storage: Storage
    const encode: User -> string

    /** The `"user"` key holds the serialised user while one is signed in,
        and is absent otherwise. */
    ghost predicate Valid()
      reads this, storage
    {
      && (user.Some? ==> UserKey in storage.items && storage.items[UserKey] == encode(user.value))
      && (user.None? ==> UserKey !in storage.items)
    }

    /** Mounting the provider: the load effect, then the mirror effect. */
    constructor (storage: Storage, decode: string -> Option<User>, encode: User -> string)
      modifies storage
      ensures this.storage == storage && this.encode == encode
      ensures user == LoadedUser(old(storage.items), decode)
      ensures storage.items == Mirrored(old(storage.items), user, encode)
      ensures Valid()
    {
      this.storage := storage;
      this.encode := encode;
      user := LoadedUser(storage.items, decode);
      new;
      Mirror();
    }

    /** The mirror effect, run after every change of `user`. */
    method Mirror()
      modifies storage
      ensures storage.items == Mirrored(old(storage.items), user, encode)
      ensures Valid()
    {
      if user.Some? {
        storage.SetItem(UserKey, encode(user.value));
      } else {
        storage.RemoveItem(UserKey);
      }
    }

    /** `login(email, password)`: a known pair replaces the session and is
        mirrored; any other pair returns false and changes nothing. */
    method Login(email: string, password: string) returns (ok: bool)
      requires Valid()
      modifies this, storage
      ensures Valid()
      ensures ok <==> Authenticate(email, password).Some?
      ensures ok ==> user == Authenticate(email, password)
      ensures !ok ==> user == old(user) && storage.items == old(storage.items)
      ensures ok ==> storage.items == Mirrored(old(storage.items), user, encode)
    {
      var selected := Authenticate(email, password);
      if selected.Some? {
        user := selected;
        Mirror();
        return true;
      }
      return false;
    }

    /** `logout()`: nobody is signed in and the key is removed. */
    method Logout()
      requires Valid()
      modifies this, storage
      ensures Valid()
      ensures user.None? && !IsAuthenticated(user) && !IsAdmin(user)
      ensures storage.items == Mirrored(old(storage.items), None, encode)
    {
      user := None;
      Mirror();
    }
  }
}
