/**
 The token and PIN section of `hsm_slot_t`, and the token file it is written through to. Threads that hold the slot
 lock change it, and the thread that starts the library under the global lock.
 */
module TokenRecords {
  import opened Common
  import opened Storage
  import opened Engine
  import opened Locks
  import opened Files

  class TokenRecord {
    var tokenInitialized: bool
    var userPinInitialized: bool
    var soPinInitialized: bool
    var tokenLabel: Block
    var userPinHash: Block
    var soPinHash: Block
    var userPinRetryCount: nat
    var soPinRetryCount: nat
    var userPinLocked: bool
    var soPinLocked: bool
    var tokenFile: Option<Bytes>

    function Token(): TokenInfo
      reads this
    {
      TokenInfo(tokenInitialized, userPinInitialized, soPinInitialized, tokenLabel, userPinHash, soPinHash)
    }

    ghost function View(): Auth
      reads this
    {
      Auth(Token(), Tries(userPinRetryCount, userPinLocked), Tries(soPinRetryCount, soPinLocked), tokenFile)
    }

    constructor (tokenFile: Option<Bytes>)
      ensures View() == Auth(BLANK_TOKEN, Tries(0, false), Tries(0, false), tokenFile)
    {
      tokenInitialized, userPinInitialized, soPinInitialized := false, false, false;
      tokenLabel, userPinHash, soPinHash := Zeros(32), Zeros(32), Zeros(32);
      userPinRetryCount, soPinRetryCount := 0, 0;
      userPinLocked, soPinLocked := false, false;
      this.tokenFile := tokenFile;
    }

    /** `memset` and the refilled retry counts of `hsm_init_slot`. */
    method Reset()
      modifies this
      ensures View() == Auth(BLANK_TOKEN, FULL_TRIES, FULL_TRIES, old(tokenFile))
    {
      tokenInitialized, userPinInitialized, soPinInitialized := false, false, false;
      tokenLabel, userPinHash, soPinHash := Zeros(32), Zeros(32), Zeros(32);
      userPinLocked, soPinLocked := false, false;
      userPinRetryCount, soPinRetryCount := PIN_RETRIES, PIN_RETRIES;
    }

    /** `hsm_storage_load_token_info`: a missing file leaves the fields as they are. */
    method Load()
      modifies this
      ensures View() == old(View()).(token := LoadToken(old(tokenFile), old(Token())))
    {
      if tokenFile.Some? {
        var t := ReadToken(tokenFile.value, Token());
        tokenInitialized, userPinInitialized, soPinInitialized := t.initialized, t.userPinSet, t.soPinSet;
        tokenLabel, userPinHash, soPinHash := t.name, t.userHash, t.soHash;
      }
    }

    /** The token part of `hsm_init_slot`. */
    method Start(thread: Thread)
      requires GlobalLock in thread.held
      modifies this
      ensures View() == StartedAuth(old(View()))
    {
      Reset();
      Load();
    }

    /** `hsm_verify_pin`. */
    method Verify(c: Crypto, role: Role, pin: Bytes, thread: Thread) returns (rv: Rv)
      requires SlotLock in thread.held
      modifies this
      ensures PinCheck(View(), rv) == VerifyPin(c, old(View()), role, pin)
    {
      if role == SecurityOfficer {
        rv := VerifySo(c, pin, thread);
      } else {
        rv := VerifyUser(c, pin, thread);
      }
    }

    method VerifySo(c: Crypto, pin: Bytes, thread: Thread) returns (rv: Rv)
      requires SlotLock in thread.held
      modifies this`soPinRetryCount, this`soPinLocked
      ensures PinCheck(View(), rv) == VerifyPin(c, old(View()), SecurityOfficer, pin)
    {
      if !soPinInitialized { return UserPinNotInitialized; }
      if soPinLocked { return PinLocked; }
      if c.hash(pin) != soPinHash {
        if soPinRetryCount > 0 {
          soPinRetryCount := soPinRetryCount - 1;
        }
        if soPinRetryCount == 0 {
          soPinLocked := true;
          return PinLocked;
        }
        return PinIncorrect;
      }
      soPinRetryCount := PIN_RETRIES;
      rv := OK;
    }

    method VerifyUser(c: Crypto, pin: Bytes, thread: Thread) returns (rv: Rv)
      requires SlotLock in thread.held
      modifies this`userPinRetryCount, this`userPinLocked
      ensures PinCheck(View(), rv) == VerifyPin(c, old(View()), User, pin)
    {
      if !userPinInitialized { return UserPinNotInitialized; }
      if userPinLocked { return PinLocked; }
      if c.hash(pin) != userPinHash {
        if userPinRetryCount > 0 {
          userPinRetryCount := userPinRetryCount - 1;
        }
        if userPinRetryCount == 0 {
          userPinLocked := true;
          return PinLocked;
        }
        return PinIncorrect;
      }
      userPinRetryCount := PIN_RETRIES;
      rv := OK;
    }

    /** `hsm_set_pin` with a length its callers have checked. */
    method SetHash(c: Crypto, role: Role, pin: Bytes, thread: Thread)
      requires SlotLock in thread.held
      modifies this`userPinHash, this`soPinHash
      ensures View() == old(View()).(token := PutHash(old(Token()), role, c.hash(pin)))
    {
      if role == SecurityOfficer {
        soPinHash := c.hash(pin);
      } else {
        userPinHash := c.hash(pin);
      }
    }

    /** `hsm_storage_save_token_info`. */
    method Save(thread: Thread)
      requires SlotLock in thread.held
      modifies this`tokenFile
      ensures View() == SaveToken(old(View()))
    {
      var file := WriteToken(Token());
      tokenFile := Some(file);
    }

    /** The part of `C_InitPIN` under the slot lock. */
    method StoreUserPin(c: Crypto, pin: Bytes, thread: Thread)
      requires SlotLock in thread.held
      modifies this
      ensures View() == UserPinStored(c, old(View()), pin)
    {
      SetHash(c, User, pin, thread);
      userPinInitialized := true;
      userPinLocked := false;
      userPinRetryCount := PIN_RETRIES;
      Save(thread);
    }

    /** The part of `C_SetPIN` under the slot lock. */
    method ChangePin(c: Crypto, role: Role, oldPin: Bytes, newPin: Bytes, thread: Thread) returns (rv: Rv)
      requires SlotLock in thread.held
      modifies this
      ensures PinCheck(View(), rv) == PinChanged(c, old(View()), role, oldPin, newPin)
    {
      rv := Verify(c, role, oldPin, thread);
      if rv != OK { return; }
      SetHash(c, role, newPin, thread);
      if role == User {
        userPinRetryCount := PIN_RETRIES;
      } else {
        soPinRetryCount := PIN_RETRIES;
      }
      Save(thread);
    }

    /** The part of `C_InitToken` after the sessions are closed. */
    method StoreToken(c: Crypto, pin: Bytes, name: Block, thread: Thread)
      requires SlotLock in thread.held
      modifies this
      ensures View() == TokenStored(c, old(View()), pin, name)
    {
      SetHash(c, SecurityOfficer, pin, thread);
      tokenLabel := TokenName(pin, name);
      tokenInitialized := true;
      soPinInitialized := true;
      userPinInitialized := false;
      userPinLocked := false;
      soPinLocked := false;
      userPinRetryCount := PIN_RETRIES;
      soPinRetryCount := PIN_RETRIES;
      Save(thread);
    }
  }
}
