/**
  The arithmetic and state logic of the platformer in `game.py`: the `clamp` helper,
  the shop (buying an item and applying it to the player), the player's `hurt` and
  power-up rules, level advance and warps, the wrap-around of the menu and shop
  selections, and the victory screen's name buffer. Physics, drawing, timers that
  count down per frame, level generation and the high-score file are not modelled.
*/
module Platformer {
  import opened Options

  /** `clamp(value, min_val, max_val)`: `max(min_val, min(max_val, value))`, on the float positions and velocities the game passes it. */
  function Clamp(value: real, lo: real, hi: real): (r: real)
    ensures lo <= hi ==> lo <= r <= hi
    ensures lo <= value <= hi ==> r == value
    ensures lo <= hi && value < lo ==> r == lo
    ensures lo <= hi && value > hi ==> r == hi
    ensures lo > hi ==> r == lo
  {
    var m := if hi < value then hi else value;
    if lo > m then lo else m
  }

  /** Clamping twice into the same range is clamping once. */
  lemma ClampIdempotent(value: real, lo: real, hi: real)
    requires lo <= hi
    ensures Clamp(Clamp(value, lo, hi), lo, hi) == Clamp(value, lo, hi)
  {
  }

  /** Python's `(i + delta) % n` for `n > 0`: always a valid index. */
  function Wrap(i: int, delta: int, n: int): (r: int)
    requires n > 0
    ensures 0 <= r < n
    ensures 0 <= i + delta < n ==> r == i + delta
    ensures i + delta == -1 ==> r == n - 1
    ensures i + delta == n ==> r == 0
  {
    (i + delta) % n
  }

  /** Moving down and then up (or up and then down) returns to a valid selection. */
  lemma WrapRoundTrip(i: int, n: int)
    requires 0 <= i < n
    ensures Wrap(Wrap(i, 1, n), -1, n) == i
    ensures Wrap(Wrap(i, -1, n), 1, n) == i
  {
  }

  datatype Color = Color(r: int, g: int, b: int)

  const RED := Color(220, 60, 60)
  const WHITE := Color(245, 245, 245)
  const BLACK_SKIN := Color(0, 0, 0)
  const GREEN := Color(60, 170, 60)
  const GOLD := Color(255, 204, 0)
  const ORANGE := Color(255, 140, 0)
  const BLUE := Color(60, 120, 220)
  const PURPLE := Color(150, 70, 200)

  /** The `type` of a shop item, with the colour that skins and trails carry. */
  datatype ItemKind = Life | Skin(color: Color) | Trail(color: Color) | OtherKind(typeName: string)

  datatype Item = Item(name: string, cost: int, kind: ItemKind)

  /** The shop's item list. */
  function ShopItems(): seq<Item> {
    [ Item("Extra Life", 15, Life),
      Item("Red Skin", 0, Skin(RED)),
      Item("White Skin", 0, Skin(WHITE)),
      Item("Premium Skin", 10, Skin(BLACK_SKIN)),
      Item("Green Skin", 0, Skin(GREEN)),
      Item("Purple Skin", 0, Skin(PURPLE)),
      Item("Gold Skin", 5, Skin(GOLD)),
      Item("Green Trail", 0, Trail(GREEN)),
      Item("Orange Trail", 1, Trail(ORANGE)),
      Item("Gold Trail", 1, Trail(GOLD)) ]
  }

  /** The player's fields that the shop, `hurt` and power-ups read or write. */
  datatype PlayerStats = PlayerStats(
    lives: int, coins: int, skin: Color, trail: Color, facingRight: bool,
    invincible: bool, invincibleTimer: real, hurtFlashTimer: real,
    velX: real, velY: real, powerTimers: map<string, real>)

  /** `_apply_item`: a life adds one life, a skin or trail sets that colour; nothing else changes. */
  function Apply(s: PlayerStats, kind: ItemKind): (r: PlayerStats)
    ensures r.lives == s.lives + (if kind.Life? then 1 else 0)
    ensures r.skin == (if kind.Skin? then kind.color else s.skin)
    ensures r.trail == (if kind.Trail? then kind.color else s.trail)
    ensures r.(lives := s.lives, skin := s.skin, trail := s.trail) == s
  {
    match kind
    case Life => s.(lives := s.lives + 1)
    case Skin(c) => s.(skin := c)
    case Trail(c) => s.(trail := c)
    case OtherKind(_) => s
  }

  /**
    `buy_item` on the player: with enough coins the cost is paid and the item applied;
    otherwise nothing changes. `bought` says which.
  */
  function Buy(s: PlayerStats, item: Item): (r: (PlayerStats, bool))
    ensures r.1 <==> s.coins >= item.cost
    ensures r.1 ==> r.0.coins == s.coins - item.cost && r.0 == Apply(s.(coins := s.coins - item.cost), item.kind)
    ensures !r.1 ==> r.0 == s
  {
    if s.coins >= item.cost then (Apply(s.(coins := s.coins - item.cost), item.kind), true)
    else (s, false)
  }

  /** A purchase never drives the coins below zero, and only an extra life changes the lives. */
  lemma BuyKeepsCoinsNonNegative(s: PlayerStats, item: Item)
    requires s.coins >= 0
    ensures Buy(s, item).0.coins >= 0
    ensures Buy(s, item).0.lives - s.lives == (if Buy(s, item).1 && item.kind.Life? then 1 else 0)
  {
  }

  /** `hurt`: ignored while invincible; otherwise one life is lost and invincibility starts. */
  function TakeHit(s: PlayerStats): (r: (PlayerStats, bool))
    ensures r.1 <==> !s.invincible
    ensures !r.1 ==> r.0 == s
    ensures r.1 ==> r.0.lives == s.lives - 1 && r.0.invincible && r.0.coins == s.coins
  {
    if s.invincible then (s, false)
    else
      (s.(lives := s.lives - 1, invincible := true, invincibleTimer := 1.5, hurtFlashTimer := 1.5,
          velY := -8.0, velX := if s.facingRight then -150.0 else 150.0), true)
  }

  /** A second hit right after a first one does nothing: the first makes the player invincible. */
  lemma HurtTwiceLosesOneLife(s: PlayerStats)
    requires !s.invincible
    ensures TakeHit(TakeHit(s).0).0 == TakeHit(s).0
    ensures TakeHit(TakeHit(s).0).0.lives == s.lives - 1
  {
  }

  /** `apply_powerup`: the duration table, with 0 for an unknown kind. */
  function PowerDuration(kind: string): (d: real)
    ensures kind == "speed" || kind == "jump" ==> d == 8.0
    ensures kind == "star" ==> d == 6.0
    ensures kind != "speed" && kind != "jump" && kind != "star" ==> d == 0.0
  {
    if kind == "speed" then 8.0
    else if kind == "jump" then 8.0
    else if kind == "star" then 6.0
    else 0.0
  }

  /**
    A player as `Player(...)` builds it and `reset_game_state` then fills in: lives,
    coins, skin and trail given, everything else at the constructor's defaults.
  */
  function NewPlayerStats(lives: int, coins: int, skin: Color, trail: Color): PlayerStats {
    PlayerStats(lives, coins, skin, trail, true, false, 0.0, 0.0, 0.0, 0.0,
                map["speed" := 0.0, "jump" := 0.0, "star" := 0.0])
  }

  /** `Player`, reduced to the fields the modelled rules touch. */
  class Player {
    var lives: int
    var coins: int
    var skin: Color
    var trail: Color
    var facingRight: bool
    var invincible: bool
    var invincibleTimer: real
    var hurtFlashTimer: real
    var velX: real
    var velY: real
    var powerTimers: map<string, real>

    function Stats(): PlayerStats
      reads this
    {
      PlayerStats(lives, coins, skin, trail, facingRight, invincible, invincibleTimer, hurtFlashTimer,
                  velX, velY, powerTimers)
    }

    /**
      A new player as `reset_game_state` builds it: lives, coins, skin and trail carried
      over, everything else at the constructor's defaults.
    */
    constructor (lives: int, coins: int, skin: Color, trail: Color)
      ensures Stats() == NewPlayerStats(lives, coins, skin, trail)
    {
      this.lives := lives;
      this.coins := coins;
      this.skin := skin;
      this.trail := trail;
      facingRight := true;
      invincible := false;
      invincibleTimer := 0.0;
      hurtFlashTimer := 0.0;
      velX := 0.0;
      velY := 0.0;
      powerTimers := map["speed" := 0.0, "jump" := 0.0, "star" := 0.0];
    }

    /** `hurt`. */
    method Hurt() returns (hurt: bool)
      modifies this
      ensures (Stats(), hurt) == TakeHit(old(Stats()))
    {
      if invincible {
        return false;
      }
      lives := lives - 1;
      invincible := true;
      invincibleTimer := 1.5;
      hurtFlashTimer := 1.5;
      velY := -8.0;
      velX := if facingRight then -150.0 else 150.0;
      return true;
    }

    /** `apply_powerup`: the kind's timer is set to its duration; nothing else changes. */
    method ApplyPowerup(kind: string)
      modifies this
      ensures Stats() == old(Stats()).(powerTimers := old(powerTimers)[kind := PowerDuration(kind)])
    {
      powerTimers := powerTimers[kind := PowerDuration(kind)];
    }
  }

  /** `Shop`. */
  class Shop {
    const items: seq<Item>
    var selectionIndex: int
    var message: string
    var messageTimer: real

    /** The selection is one of the items. */
    ghost predicate Valid()
      reads this
    {
      |items| > 0 && 0 <= selectionIndex < |items|
    }

    constructor ()
      ensures Valid() && items == ShopItems() && selectionIndex == 0 && message == "" && messageTimer == 0.0
    {
      items := ShopItems();
      selectionIndex := 0;
      message := "";
      messageTimer := 0.0;
    }

    /**
      `buy_item`: nothing happens with no items; otherwise the selected item is bought
      when the player can pay for it, and the message says how it went.
    */
    method BuyItem(player: Player)
      requires items == [] || 0 <= selectionIndex < |items|
      modifies this, player
      ensures items == [] ==> unchanged(this) && unchanged(player)
      ensures items != [] ==>
                var item := items[old(selectionIndex)];
                var (stats, bought) := Buy(old(player.Stats()), item);
                player.Stats() == stats && selectionIndex == old(selectionIndex)
                && message == (if bought then "Purchased " + item.name + "!" else "Not enough coins!")
                && messageTimer == 1.5
    {
      if items == [] {
        return;
      }
      var item := items[selectionIndex];
      var cost := item.cost;
      if player.coins >= cost {
        player.coins := player.coins - cost;
        ApplyItem(player, item);
        ShowMessage("Purchased " + item.name + "!", 1.5);
      } else {
        ShowMessage("Not enough coins!", 1.5);
      }
    }

    /** `_apply_item`. */
    method ApplyItem(player: Player, item: Item)
      modifies player
      ensures player.Stats() == Apply(old(player.Stats()), item.kind)
    {
      match item.kind {
        case Life => player.lives := player.lives + 1;
        case Skin(c) => player.skin := c;
        case Trail(c) => player.trail := c;
        case OtherKind(_) =>
      }
    }

    /** `show_message`. */
    method ShowMessage(text: string, duration: real)
      modifies this
      ensures message == text && messageTimer == duration && selectionIndex == old(selectionIndex)
    {
      message := text;
      messageTimer := duration;
    }

    /** The shop's up key: the selection moves up, wrapping from the first item to the last. */
    method MoveUp()
      requires Valid()
      modifies this
      ensures Valid() && selectionIndex == Wrap(old(selectionIndex), -1, |items|)
      ensures message == old(message) && messageTimer == old(messageTimer)
    {
      selectionIndex := (selectionIndex - 1) % |items|;
    }

    /** The shop's down key: the selection moves down, wrapping from the last item to the first. */
    method MoveDown()
      requires Valid()
      modifies this
      ensures Valid() && selectionIndex == Wrap(old(selectionIndex), 1, |items|)
      ensures message == old(message) && messageTimer == old(messageTimer)
    {
      selectionIndex := (selectionIndex + 1) % |items|;
    }
  }

  /** The number of levels in `LEVELS`. */
  const LEVEL_COUNT := 7

  /** The longest name the victory screen accepts. */
  const NAME_LIMIT := 12

  datatype State = Menu | Playing | ShopOpen | GameOver | Victory | Times

  datatype Key = KeyUp | KeyDown | KeyReturn | KeyBackspace | KeyR | KeyQ | KeyEscape | KeyP | OtherKey

  /** Python's `str.isprintable()` on the ASCII range: space to tilde. */
  predicate Printable(text: string) {
    forall i :: 0 <= i < |text| ==> 32 <= text[i] as int <= 126
  }

  /** `Game`, reduced to its state machine. */
  class Game {
    var state: State
    var levelIndex: int
    var menuSelection: int
    var nameBuffer: string
    var elapsedTime: real
    var victoryTime: real
    var paused: bool
    var player: Player

    /** `__init__`: the menu, level 0, and a player with 3 lives, no coins and the default looks. */
    constructor ()
      ensures state == Menu && levelIndex == 0 && menuSelection == 0 && nameBuffer == ""
      ensures elapsedTime == 0.0 && victoryTime == 0.0 && !paused && fresh(player)
      ensures player.Stats() == NewPlayerStats(3, 0, BLUE, WHITE)
    {
      state := Menu;
      levelIndex := 0;
      menuSelection := 0;
      nameBuffer := "";
      victoryTime := 0.0;
      elapsedTime := 0.0;
      paused := false;
      player := new Player(3, 0, BLUE, WHITE);
    }

    /** `reset_game_state`: a new player carrying over lives, coins, skin and trail; the clock restarts. */
    method ResetGameState()
      modifies this
      ensures fresh(player)
      ensures player.Stats() == NewPlayerStats(old(player.lives), old(player.coins), old(player.skin), old(player.trail))
      ensures elapsedTime == 0.0 && !paused
      ensures state == old(state) && levelIndex == old(levelIndex) && menuSelection == old(menuSelection)
      ensures nameBuffer == old(nameBuffer) && victoryTime == old(victoryTime)
    {
      player := new Player(player.lives, player.coins, player.skin, player.trail);
      elapsedTime := 0.0;
      paused := false;
    }

    /**
      `_next_level`: the level index goes up by one; a level that exists is loaded and
      played with the clock kept, and running past the last level is a victory at the
      current time.
    */
    method NextLevel()
      modifies this
      ensures levelIndex == old(levelIndex) + 1
      ensures levelIndex < LEVEL_COUNT ==>
                state == Playing && elapsedTime == old(elapsedTime) && victoryTime == old(victoryTime)
                && !paused && fresh(player)
                && player.Stats() == NewPlayerStats(old(player.lives), old(player.coins), old(player.skin), old(player.trail))
      ensures levelIndex >= LEVEL_COUNT ==>
                state == Victory && victoryTime == old(elapsedTime) && elapsedTime == old(elapsedTime)
                && paused == old(paused) && player == old(player) && player.Stats() == old(player.Stats())
      ensures menuSelection == old(menuSelection) && nameBuffer == old(nameBuffer)
    {
      levelIndex := levelIndex + 1;
      if levelIndex < LEVEL_COUNT {
        var currentTime := elapsedTime;
        ResetGameState();
        elapsedTime := currentTime;
        state := Playing;
      } else {
        victoryTime := elapsedTime;
        state := Victory;
      }
    }

    /** `_warp_to_level`: a valid target is loaded and played; any other target falls back to `_next_level`. */
    method WarpToLevel(target: int)
      modifies this
      ensures 0 <= target < LEVEL_COUNT || levelIndex < LEVEL_COUNT ==>
                state == Playing && elapsedTime == old(elapsedTime) && victoryTime == old(victoryTime)
                && !paused && fresh(player)
                && player.Stats() == NewPlayerStats(old(player.lives), old(player.coins), old(player.skin), old(player.trail))
      ensures 0 <= target < LEVEL_COUNT ==> levelIndex == target
      ensures !(0 <= target < LEVEL_COUNT) ==> levelIndex == old(levelIndex) + 1
      ensures !(0 <= target < LEVEL_COUNT) && levelIndex >= LEVEL_COUNT ==>
                state == Victory && victoryTime == old(elapsedTime) && elapsedTime == old(elapsedTime)
                && paused == old(paused) && player == old(player) && player.Stats() == old(player.Stats())
      ensures menuSelection == old(menuSelection) && nameBuffer == old(nameBuffer)
    {
      if 0 <= target < LEVEL_COUNT {
        levelIndex := target;
        var currentTime := elapsedTime;
        ResetGameState();
        elapsedTime := currentTime;
        state := Playing;
      } else {
        NextLevel();
      }
    }

    /** The menu's up and down keys: the selection wraps around the three entries. */
    method MenuMove(key: Key)
      requires key == KeyUp || key == KeyDown
      modifies this
      ensures menuSelection == Wrap(old(menuSelection), if key == KeyUp then -1 else 1, 3)
      ensures 0 <= menuSelection < 3
      ensures state == old(state) && levelIndex == old(levelIndex) && nameBuffer == old(nameBuffer)
      ensures elapsedTime == old(elapsedTime) && victoryTime == old(victoryTime) && paused == old(paused)
      ensures player == old(player) && player.Stats() == old(player.Stats())
    {
      if key == KeyUp {
        menuSelection := (menuSelection - 1) % 3;
      } else {
        menuSelection := (menuSelection + 1) % 3;
      }
    }

    /**
      The name entry of the victory screen (`_handle_end_screen_events`): Return with a
      name saves it and goes back to the menu, Backspace drops the last character, and a
      printable character is added only while the name is shorter than 12.
    */
    method VictoryKey(key: Key, text: string)
      requires state == Victory
      modifies this
      ensures key == KeyReturn && old(nameBuffer) != "" ==> state == Menu && nameBuffer == ""
      ensures key == KeyBackspace ==>
                state == Victory
                && nameBuffer == if old(nameBuffer) == "" then "" else old(nameBuffer)[..|old(nameBuffer)| - 1]
      ensures !(key == KeyReturn && old(nameBuffer) != "") && key != KeyBackspace ==>
                state == Victory
                && nameBuffer == if Printable(text) && |old(nameBuffer)| < NAME_LIMIT then old(nameBuffer) + text
                                 else old(nameBuffer)
      ensures |text| <= 1 && |old(nameBuffer)| <= NAME_LIMIT ==> |nameBuffer| <= NAME_LIMIT
      ensures levelIndex == old(levelIndex) && menuSelection == old(menuSelection)
      ensures elapsedTime == old(elapsedTime) && victoryTime == old(victoryTime) && paused == old(paused)
      ensures player == old(player) && player.Stats() == old(player.Stats())
    {
      if key == KeyReturn && nameBuffer != "" {
        state := Menu;
        nameBuffer := "";
      } else if key == KeyBackspace {
        if nameBuffer != "" {
          nameBuffer := nameBuffer[..|nameBuffer| - 1];
        }
      } else if Printable(text) && |nameBuffer| < NAME_LIMIT {
        nameBuffer := nameBuffer + text;
      }
    }

    /**
      The game-over screen: R restarts at level 0 with a new player of 3 lives, no coins
      and the default looks; Q returns to the menu.
    */
    method GameOverKey(key: Key)
      requires state == GameOver
      modifies this, player
      ensures key == KeyR ==>
                state == Playing && levelIndex == 0 && elapsedTime == 0.0 && !paused && fresh(player)
                && player.Stats() == NewPlayerStats(3, 0, BLUE, WHITE)
      ensures key == KeyQ ==> state == Menu
      ensures key != KeyR ==>
                levelIndex == old(levelIndex) && elapsedTime == old(elapsedTime) && paused == old(paused)
                && player == old(player) && unchanged(player)
      ensures key != KeyR && key != KeyQ ==> state == GameOver
      ensures menuSelection == old(menuSelection) && nameBuffer == old(nameBuffer) && victoryTime == old(victoryTime)
    {
      if key == KeyR {
        levelIndex := 0;
        player.lives := 3;
        player.coins := 0;
        player.skin := BLUE;
        player.trail := WHITE;
        ResetGameState();
        state := Playing;
      } else if key == KeyQ {
        state := Menu;
      }
    }
  }

  /** Dropping the last character and adding it back restores the name. */
  lemma BackspaceUndoesTyping(name: string, c: char)
    ensures (name + [c])[..|name + [c]| - 1] == name
  {
  }
}
