/**
 * Windows virtual-key codes and the Mac-to-Windows key table of the Windows
 * daemon, with the set of keys that `SendInput` must flag as extended.
 */
module WindowsKeys {
  import opened Options

  const VK_BACK: int := 0x08
  const VK_TAB: int := 0x09
  const VK_RETURN: int := 0x0D
  const VK_CAPITAL: int := 0x14
  const VK_ESCAPE: int := 0x1B
  const VK_SPACE: int := 0x20
  const VK_PRIOR: int := 0x21
  const VK_NEXT: int := 0x22
  const VK_END: int := 0x23
  const VK_HOME: int := 0x24
  const VK_LEFT: int := 0x25
  const VK_UP: int := 0x26
  const VK_RIGHT: int := 0x27
  const VK_DOWN: int := 0x28
  const VK_INSERT: int := 0x2D
  const VK_DELETE: int := 0x2E
  const VK_LWIN: int := 0x5B
  const VK_RWIN: int := 0x5C
  const VK_NUMPAD0: int := 0x60
  const VK_NUMPAD1: int := 0x61
  const VK_NUMPAD2: int := 0x62
  const VK_NUMPAD3: int := 0x63
  const VK_NUMPAD4: int := 0x64
  const VK_NUMPAD5: int := 0x65
  const VK_NUMPAD6: int := 0x66
  const VK_NUMPAD7: int := 0x67
  const VK_NUMPAD8: int := 0x68
  const VK_NUMPAD9: int := 0x69
  const VK_MULTIPLY: int := 0x6A
  const VK_ADD: int := 0x6B
  const VK_SUBTRACT: int := 0x6D
  const VK_DECIMAL: int := 0x6E
  const VK_DIVIDE: int := 0x6F
  const VK_F1: int := 0x70
  const VK_F2: int := 0x71
  const VK_F3: int := 0x72
  const VK_F4: int := 0x73
  const VK_F5: int := 0x74
  const VK_F6: int := 0x75
  const VK_F7: int := 0x76
  const VK_F8: int := 0x77
  const VK_F9: int := 0x78
  const VK_F10: int := 0x79
  const VK_F11: int := 0x7A
  const VK_F12: int := 0x7B
  const VK_NUMLOCK: int := 0x90
  const VK_LSHIFT: int := 0xA0
  const VK_RSHIFT: int := 0xA1
  const VK_LCONTROL: int := 0xA2
  const VK_RCONTROL: int := 0xA3
  const VK_LMENU: int := 0xA4
  const VK_RMENU: int := 0xA5
  const VK_OEM_1: int := 0xBA
  const VK_OEM_PLUS: int := 0xBB
  const VK_OEM_COMMA: int := 0xBC
  const VK_OEM_MINUS: int := 0xBD
  const VK_OEM_PERIOD: int := 0xBE
  const VK_OEM_2: int := 0xBF
  const VK_OEM_3: int := 0xC0
  const VK_OEM_4: int := 0xDB
  const VK_OEM_5: int := 0xDC
  const VK_OEM_6: int := 0xDD
  const VK_OEM_7: int := 0xDE

  /**
   * `MAC_TO_WIN_KEYCODE.get(mac)`: the virtual key for a Mac virtual key code,
   * or `None` for a code the table does not list. Letters and digits are
   * their upper-case character codes (`ord('A')`). Every listed Mac code is
   * 7-bit, and every key it maps to is a real virtual key, positive and below
   * 0x100.
   */
  function MacToWinKeycode(mac: int): (r: Option<int>)
    ensures r.Some? ==> 0 <= mac < 0x80
    ensures r.Some? ==> 0 < r.value < 0x100
  {
    match mac
    // Letters
    case 0 => Some('A' as int)
    case 11 => Some('B' as int)
    case 8 => Some('C' as int)
    case 2 => Some('D' as int)
    case 14 => Some('E' as int)
    case 3 => Some('F' as int)
    case 5 => Some('G' as int)
    case 4 => Some('H' as int)
    case 34 => Some('I' as int)
    case 38 => Some('J' as int)
    case 40 => Some('K' as int)
    case 37 => Some('L' as int)
    case 46 => Some('M' as int)
    case 45 => Some('N' as int)
    case 31 => Some('O' as int)
    case 35 => Some('P' as int)
    case 12 => Some('Q' as int)
    case 15 => Some('R' as int)
    case 1 => Some('S' as int)
    case 17 => Some('T' as int)
    case 32 => Some('U' as int)
    case 9 => Some('V' as int)
    case 13 => Some('W' as int)
    case 7 => Some('X' as int)
    case 16 => Some('Y' as int)
    case 6 => Some('Z' as int)
    // Number row
    case 29 => Some('0' as int)
    case 18 => Some('1' as int)
    case 19 => Some('2' as int)
    case 20 => Some('3' as int)
    case 21 => Some('4' as int)
    case 23 => Some('5' as int)
    case 22 => Some('6' as int)
    case 26 => Some('7' as int)
    case 28 => Some('8' as int)
    case 25 => Some('9' as int)
    // Punctuation
    case 49 => Some(VK_SPACE)
    case 36 => Some(VK_RETURN)
    case 51 => Some(VK_BACK)
    case 48 => Some(VK_TAB)
    case 53 => Some(VK_ESCAPE)
    case 43 => Some(VK_OEM_COMMA)
    case 47 => Some(VK_OEM_PERIOD)
    case 44 => Some(VK_OEM_2)
    case 41 => Some(VK_OEM_1)
    case 39 => Some(VK_OEM_7)
    case 33 => Some(VK_OEM_4)
    case 30 => Some(VK_OEM_6)
    case 42 => Some(VK_OEM_5)
    case 50 => Some(VK_OEM_3)
    case 27 => Some(VK_OEM_MINUS)
    case 24 => Some(VK_OEM_PLUS)
    // Modifiers
    case 56 => Some(VK_LSHIFT)
    case 60 => Some(VK_RSHIFT)
    case 59 => Some(VK_LCONTROL)
    case 62 => Some(VK_RCONTROL)
    case 58 => Some(VK_LMENU)
    case 61 => Some(VK_RMENU)
    case 55 => Some(VK_LWIN)
    case 54 => Some(VK_RWIN)
    case 57 => Some(VK_CAPITAL)
    // Function keys
    case 122 => Some(VK_F1)
    case 120 => Some(VK_F2)
    case 99 => Some(VK_F3)
    case 118 => Some(VK_F4)
    case 96 => Some(VK_F5)
    case 97 => Some(VK_F6)
    case 98 => Some(VK_F7)
    case 100 => Some(VK_F8)
    case 101 => Some(VK_F9)
    case 109 => Some(VK_F10)
    case 103 => Some(VK_F11)
    case 111 => Some(VK_F12)
    // Navigation
    case 123 => Some(VK_LEFT)
    case 124 => Some(VK_RIGHT)
    case 125 => Some(VK_DOWN)
    case 126 => Some(VK_UP)
    case 115 => Some(VK_HOME)
    case 119 => Some(VK_END)
    case 116 => Some(VK_PRIOR)
    case 121 => Some(VK_NEXT)
    case 117 => Some(VK_DELETE)
    case 114 => Some(VK_INSERT)
    // Numpad
    case 71 => Some(VK_NUMLOCK)
    case 82 => Some(VK_NUMPAD0)
    case 83 => Some(VK_NUMPAD1)
    case 84 => Some(VK_NUMPAD2)
    case 85 => Some(VK_NUMPAD3)
    case 86 => Some(VK_NUMPAD4)
    case 87 => Some(VK_NUMPAD5)
    case 88 => Some(VK_NUMPAD6)
    case 89 => Some(VK_NUMPAD7)
    case 91 => Some(VK_NUMPAD8)
    case 92 => Some(VK_NUMPAD9)
    case 65 => Some(VK_DECIMAL)
    case 69 => Some(VK_ADD)
    case 78 => Some(VK_SUBTRACT)
    case 67 => Some(VK_MULTIPLY)
    case 75 => Some(VK_DIVIDE)
    case 76 => Some(VK_RETURN)
    case _ => None
  }

  /** Keys whose `SendInput` record carries `KEYEVENTF_EXTENDEDKEY`. */
  const EXTENDED_KEYS: set<int> := {
    VK_INSERT, VK_DELETE, VK_HOME, VK_END, VK_PRIOR, VK_NEXT,
    VK_LEFT, VK_RIGHT, VK_UP, VK_DOWN,
    VK_LWIN, VK_RWIN, VK_RCONTROL, VK_RMENU, VK_DIVIDE
  }

  /**
   * The Mac keys sent as extended keys are exactly the navigation block
   * (arrows, Home, End, Page Up, Page Down, forward Delete, Insert), both
   * Command keys, the right Control and Option keys, and keypad divide;
   * keypad Enter, which shares `VK_RETURN` with Return, is not one of them.
   */
  lemma ExtendedMacKeys(mac: int)
    ensures MacToWinKeycode(mac).Some? && MacToWinKeycode(mac).value in EXTENDED_KEYS <==>
      mac in {123, 124, 125, 126, 115, 119, 116, 121, 117, 114, 55, 54, 62, 61, 75}
  {
  }

  /** Every key the table produces is a real virtual key: positive and below 0x100. */
  lemma MacToWinKeycodeRange(mac: int)
    requires MacToWinKeycode(mac).Some?
    ensures 0 < MacToWinKeycode(mac).value < 0x100
  {
  }

  /**
   * Unlike the Linux table, this one is not one-to-one: Return and the keypad
   * Enter both produce `VK_RETURN`.
   */
  lemma ReturnSharedWithKeypadEnter()
    ensures MacToWinKeycode(36) == MacToWinKeycode(76) == Some(VK_RETURN)
  {
  }
}
