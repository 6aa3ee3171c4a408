/**
 * Linux input codes and the Mac-to-Linux key table of the Linux daemon. The
 * numeric values are those of the Linux input-event-codes header, which
 * `evdev.ecodes` exposes.
 */
module LinuxKeys {
  import opened Options

  const EV_KEY: int := 0x01
  const EV_REL: int := 0x02

  const REL_X: int := 0x00
  const REL_Y: int := 0x01
  const REL_HWHEEL: int := 0x06
  const REL_WHEEL: int := 0x08

  const BTN_LEFT: int := 0x110
  const BTN_RIGHT: int := 0x111
  const BTN_MIDDLE: int := 0x112

  const KEY_ESC: int := 1
  const KEY_1: int := 2
  const KEY_2: int := 3
  const KEY_3: int := 4
  const KEY_4: int := 5
  const KEY_5: int := 6
  const KEY_6: int := 7
  const KEY_7: int := 8
  const KEY_8: int := 9
  const KEY_9: int := 10
  const KEY_0: int := 11
  const KEY_MINUS: int := 12
  const KEY_EQUAL: int := 13
  const KEY_BACKSPACE: int := 14
  const KEY_TAB: int := 15
  const KEY_Q: int := 16
  const KEY_W: int := 17
  const KEY_E: int := 18
  const KEY_R: int := 19
  const KEY_T: int := 20
  const KEY_Y: int := 21
  const KEY_U: int := 22
  const KEY_I: int := 23
  const KEY_O: int := 24
  const KEY_P: int := 25
  const KEY_LEFTBRACE: int := 26
  const KEY_RIGHTBRACE: int := 27
  const KEY_ENTER: int := 28
  const KEY_LEFTCTRL: int := 29
  const KEY_A: int := 30
  const KEY_S: int := 31
  const KEY_D: int := 32
  const KEY_F: int := 33
  const KEY_G: int := 34
  const KEY_H: int := 35
  const KEY_J: int := 36
  const KEY_K: int := 37
  const KEY_L: int := 38
  const KEY_SEMICOLON: int := 39
  const KEY_APOSTROPHE: int := 40
  const KEY_GRAVE: int := 41
  const KEY_LEFTSHIFT: int := 42
  const KEY_BACKSLASH: int := 43
  const KEY_Z: int := 44
  const KEY_X: int := 45
  const KEY_C: int := 46
  const KEY_V: int := 47
  const KEY_B: int := 48
  const KEY_N: int := 49
  const KEY_M: int := 50
  const KEY_COMMA: int := 51
  const KEY_DOT: int := 52
  const KEY_SLASH: int := 53
  const KEY_RIGHTSHIFT: int := 54
  const KEY_KPASTERISK: int := 55
  const KEY_LEFTALT: int := 56
  const KEY_SPACE: int := 57
  const KEY_CAPSLOCK: int := 58
  const KEY_F1: int := 59
  const KEY_F2: int := 60
  const KEY_F3: int := 61
  const KEY_F4: int := 62
  const KEY_F5: int := 63
  const KEY_F6: int := 64
  const KEY_F7: int := 65
  const KEY_F8: int := 66
  const KEY_F9: int := 67
  const KEY_F10: int := 68
  const KEY_NUMLOCK: int := 69
  const KEY_KP7: int := 71
  const KEY_KP8: int := 72
  const KEY_KP9: int := 73
  const KEY_KPMINUS: int := 74
  const KEY_KP4: int := 75
  const KEY_KP5: int := 76
  const KEY_KP6: int := 77
  const KEY_KPPLUS: int := 78
  const KEY_KP1: int := 79
  const KEY_KP2: int := 80
  const KEY_KP3: int := 81
  const KEY_KP0: int := 82
  const KEY_KPDOT: int := 83
  const KEY_F11: int := 87
  const KEY_F12: int := 88
  const KEY_KPENTER: int := 96
  const KEY_RIGHTCTRL: int := 97
  const KEY_KPSLASH: int := 98
  const KEY_RIGHTALT: int := 100
  const KEY_HOME: int := 102
  const KEY_UP: int := 103
  const KEY_PAGEUP: int := 104
  const KEY_LEFT: int := 105
  const KEY_RIGHT: int := 106
  const KEY_END: int := 107
  const KEY_DOWN: int := 108
  const KEY_PAGEDOWN: int := 109
  const KEY_INSERT: int := 110
  const KEY_DELETE: int := 111
  const KEY_LEFTMETA: int := 125
  const KEY_RIGHTMETA: int := 126

  /**
   * `MAC_TO_LINUX_KEYCODE.get(mac)`: the Linux key for a Mac virtual key code,
   * or `None` for a code the table does not list. Every listed Mac code is
   * 7-bit, and every key it maps to is a keyboard key, below the mouse
   * buttons; `LinuxToMacUndoes` shows the table is undone by reading it
   * backwards.
   */
  function MacToLinuxKeycode(mac: int): (r: Option<int>)
    ensures r.Some? ==> 0 <= mac < MAC_KEYCODE_LIMIT
    ensures r.Some? ==> 0 < r.value < BTN_LEFT
  {
    match mac
    // Letters
    case 0 => Some(KEY_A)
    case 11 => Some(KEY_B)
    case 8 => Some(KEY_C)
    case 2 => Some(KEY_D)
    case 14 => Some(KEY_E)
    case 3 => Some(KEY_F)
    case 5 => Some(KEY_G)
    case 4 => Some(KEY_H)
    case 34 => Some(KEY_I)
    case 38 => Some(KEY_J)
    case 40 => Some(KEY_K)
    case 37 => Some(KEY_L)
    case 46 => Some(KEY_M)
    case 45 => Some(KEY_N)
    case 31 => Some(KEY_O)
    case 35 => Some(KEY_P)
    case 12 => Some(KEY_Q)
    case 15 => Some(KEY_R)
    case 1 => Some(KEY_S)
    case 17 => Some(KEY_T)
    case 32 => Some(KEY_U)
    case 9 => Some(KEY_V)
    case 13 => Some(KEY_W)
    case 7 => Some(KEY_X)
    case 16 => Some(KEY_Y)
    case 6 => Some(KEY_Z)
    // Number row
    case 29 => Some(KEY_0)
    case 18 => Some(KEY_1)
    case 19 => Some(KEY_2)
    case 20 => Some(KEY_3)
    case 21 => Some(KEY_4)
    case 23 => Some(KEY_5)
    case 22 => Some(KEY_6)
    case 26 => Some(KEY_7)
    case 28 => Some(KEY_8)
    case 25 => Some(KEY_9)
    // Punctuation & symbols
    case 49 => Some(KEY_SPACE)
    case 36 => Some(KEY_ENTER)
    case 51 => Some(KEY_BACKSPACE)
    case 48 => Some(KEY_TAB)
    case 53 => Some(KEY_ESC)
    case 43 => Some(KEY_COMMA)
    case 47 => Some(KEY_DOT)
    case 44 => Some(KEY_SLASH)
    case 41 => Some(KEY_SEMICOLON)
    case 39 => Some(KEY_APOSTROPHE)
    case 33 => Some(KEY_LEFTBRACE)
    case 30 => Some(KEY_RIGHTBRACE)
    case 42 => Some(KEY_BACKSLASH)
    case 50 => Some(KEY_GRAVE)
    case 27 => Some(KEY_MINUS)
    case 24 => Some(KEY_EQUAL)
    // Modifier keys
    case 56 => Some(KEY_LEFTSHIFT)
    case 60 => Some(KEY_RIGHTSHIFT)
    case 59 => Some(KEY_LEFTCTRL)
    case 62 => Some(KEY_RIGHTCTRL)
    case 58 => Some(KEY_LEFTALT)
    case 61 => Some(KEY_RIGHTALT)
    case 55 => Some(KEY_LEFTMETA)
    case 54 => Some(KEY_RIGHTMETA)
    case 57 => Some(KEY_CAPSLOCK)
    // Function keys
    case 122 => Some(KEY_F1)
    case 120 => Some(KEY_F2)
    case 99 => Some(KEY_F3)
    case 118 => Some(KEY_F4)
    case 96 => Some(KEY_F5)
    case 97 => Some(KEY_F6)
    case 98 => Some(KEY_F7)
    case 100 => Some(KEY_F8)
    case 101 => Some(KEY_F9)
    case 109 => Some(KEY_F10)
    case 103 => Some(KEY_F11)
    case 111 => Some(KEY_F12)
    // Navigation
    case 123 => Some(KEY_LEFT)
    case 124 => Some(KEY_RIGHT)
    case 125 => Some(KEY_DOWN)
    case 126 => Some(KEY_UP)
    case 115 => Some(KEY_HOME)
    case 119 => Some(KEY_END)
    case 116 => Some(KEY_PAGEUP)
    case 121 => Some(KEY_PAGEDOWN)
    case 117 => Some(KEY_DELETE)
    case 114 => Some(KEY_INSERT)
    // Numpad
    case 71 => Some(KEY_NUMLOCK)
    case 82 => Some(KEY_KP0)
    case 83 => Some(KEY_KP1)
    case 84 => Some(KEY_KP2)
    case 85 => Some(KEY_KP3)
    case 86 => Some(KEY_KP4)
    case 87 => Some(KEY_KP5)
    case 88 => Some(KEY_KP6)
    case 89 => Some(KEY_KP7)
    case 91 => Some(KEY_KP8)
    case 92 => Some(KEY_KP9)
    case 65 => Some(KEY_KPDOT)
    case 69 => Some(KEY_KPPLUS)
    case 78 => Some(KEY_KPMINUS)
    case 67 => Some(KEY_KPASTERISK)
    case 75 => Some(KEY_KPSLASH)
    case 76 => Some(KEY_KPENTER)
    case _ => None
  }

  /** Mac virtual key codes are 7-bit: every code the table lists is below this. */
  const MAC_KEYCODE_LIMIT: int := 0x80

  lemma MacKeycodeBound(mac: int)
    requires MacToLinuxKeycode(mac).Some?
    ensures 0 <= mac < MAC_KEYCODE_LIMIT
  {
  }

  lemma MacKeycodesBounded()
    ensures forall mac :: MacToLinuxKeycode(mac).Some? ==> 0 <= mac < MAC_KEYCODE_LIMIT
  {
    forall mac | MacToLinuxKeycode(mac).Some? {
      MacKeycodeBound(mac);
    }
  }

  /**
   * The key codes the virtual device declares: every value of the table and
   * the three mouse buttons.
   */
  function KeyCapabilities(): (caps: set<int>)
    ensures BTN_LEFT in caps && BTN_RIGHT in caps && BTN_MIDDLE in caps
    ensures forall mac :: MacToLinuxKeycode(mac).Some? ==> MacToLinuxKeycode(mac).value in caps
  {
    MacKeycodesBounded();
    (set mac | 0 <= mac < MAC_KEYCODE_LIMIT && MacToLinuxKeycode(mac).Some? :: MacToLinuxKeycode(mac).value)
    + {BTN_LEFT, BTN_RIGHT, BTN_MIDDLE}
  }

  /**
   * The declared key codes are exactly the table's values and the three
   * buttons: a mapped key and each button are declared, and nothing else is.
   */
  lemma KeyCapabilitiesExactly(code: int)
    ensures code in KeyCapabilities() <==>
      code in {BTN_LEFT, BTN_RIGHT, BTN_MIDDLE} || exists mac :: MacToLinuxKeycode(mac) == Some(code)
  {
    if mac :| MacToLinuxKeycode(mac) == Some(code) {
      MacKeycodeBound(mac);
    }
  }

  /** The relative axes the virtual device declares. */
  const REL_CAPABILITIES: set<int> := {REL_X, REL_Y, REL_WHEEL, REL_HWHEEL}

  /** The table read backwards: the Mac key code behind each Linux key it produces. */
  function LinuxToMacKeycode(code: int): Option<int> {
    match code
    case 1 => Some(53)  // KEY_ESC
    case 2 => Some(18)  // KEY_1
    case 3 => Some(19)  // KEY_2
    case 4 => Some(20)  // KEY_3
    case 5 => Some(21)  // KEY_4
    case 6 => Some(23)  // KEY_5
    case 7 => Some(22)  // KEY_6
    case 8 => Some(26)  // KEY_7
    case 9 => Some(28)  // KEY_8
    case 10 => Some(25)  // KEY_9
    case 11 => Some(29)  // KEY_0
    case 12 => Some(27)  // KEY_MINUS
    case 13 => Some(24)  // KEY_EQUAL
    case 14 => Some(51)  // KEY_BACKSPACE
    case 15 => Some(48)  // KEY_TAB
    case 16 => Some(12)  // KEY_Q
    case 17 => Some(13)  // KEY_W
    case 18 => Some(14)  // KEY_E
    case 19 => Some(15)  // KEY_R
    case 20 => Some(17)  // KEY_T
    case 21 => Some(16)  // KEY_Y
    case 22 => Some(32)  // KEY_U
    case 23 => Some(34)  // KEY_I
    case 24 => Some(31)  // KEY_O
    case 25 => Some(35)  // KEY_P
    case 26 => Some(33)  // KEY_LEFTBRACE
    case 27 => Some(30)  // KEY_RIGHTBRACE
    case 28 => Some(36)  // KEY_ENTER
    case 29 => Some(59)  // KEY_LEFTCTRL
    case 30 => Some(0)  // KEY_A
    case 31 => Some(1)  // KEY_S
    case 32 => Some(2)  // KEY_D
    case 33 => Some(3)  // KEY_F
    case 34 => Some(5)  // KEY_G
    case 35 => Some(4)  // KEY_H
    case 36 => Some(38)  // KEY_J
    case 37 => Some(40)  // KEY_K
    case 38 => Some(37)  // KEY_L
    case 39 => Some(41)  // KEY_SEMICOLON
    case 40 => Some(39)  // KEY_APOSTROPHE
    case 41 => Some(50)  // KEY_GRAVE
    case 42 => Some(56)  // KEY_LEFTSHIFT
    case 43 => Some(42)  // KEY_BACKSLASH
    case 44 => Some(6)  // KEY_Z
    case 45 => Some(7)  // KEY_X
    case 46 => Some(8)  // KEY_C
    case 47 => Some(9)  // KEY_V
    case 48 => Some(11)  // KEY_B
    case 49 => Some(45)  // KEY_N
    case 50 => Some(46)  // KEY_M
    case 51 => Some(43)  // KEY_COMMA
    case 52 => Some(47)  // KEY_DOT
    case 53 => Some(44)  // KEY_SLASH
    case 54 => Some(60)  // KEY_RIGHTSHIFT
    case 55 => Some(67)  // KEY_KPASTERISK
    case 56 => Some(58)  // KEY_LEFTALT
    case 57 => Some(49)  // KEY_SPACE
    case 58 => Some(57)  // KEY_CAPSLOCK
    case 59 => Some(122)  // KEY_F1
    case 60 => Some(120)  // KEY_F2
    case 61 => Some(99)  // KEY_F3
    case 62 => Some(118)  // KEY_F4
    case 63 => Some(96)  // KEY_F5
    case 64 => Some(97)  // KEY_F6
    case 65 => Some(98)  // KEY_F7
    case 66 => Some(100)  // KEY_F8
    case 67 => Some(101)  // KEY_F9
    case 68 => Some(109)  // KEY_F10
    case 69 => Some(71)  // KEY_NUMLOCK
    case 71 => Some(89)  // KEY_KP7
    case 72 => Some(91)  // KEY_KP8
    case 73 => Some(92)  // KEY_KP9
    case 74 => Some(78)  // KEY_KPMINUS
    case 75 => Some(86)  // KEY_KP4
    case 76 => Some(87)  // KEY_KP5
    case 77 => Some(88)  // KEY_KP6
    case 78 => Some(69)  // KEY_KPPLUS
    case 79 => Some(83)  // KEY_KP1
    case 80 => Some(84)  // KEY_KP2
    case 81 => Some(85)  // KEY_KP3
    case 82 => Some(82)  // KEY_KP0
    case 83 => Some(65)  // KEY_KPDOT
    case 87 => Some(103)  // KEY_F11
    case 88 => Some(111)  // KEY_F12
    case 96 => Some(76)  // KEY_KPENTER
    case 97 => Some(62)  // KEY_RIGHTCTRL
    case 98 => Some(75)  // KEY_KPSLASH
    case 100 => Some(61)  // KEY_RIGHTALT
    case 102 => Some(115)  // KEY_HOME
    case 103 => Some(126)  // KEY_UP
    case 104 => Some(116)  // KEY_PAGEUP
    case 105 => Some(123)  // KEY_LEFT
    case 106 => Some(124)  // KEY_RIGHT
    case 107 => Some(119)  // KEY_END
    case 108 => Some(125)  // KEY_DOWN
    case 109 => Some(121)  // KEY_PAGEDOWN
    case 110 => Some(114)  // KEY_INSERT
    case 111 => Some(117)  // KEY_DELETE
    case 125 => Some(55)  // KEY_LEFTMETA
    case 126 => Some(54)  // KEY_RIGHTMETA
    case _ => None
  }

  /** The backward table at each entry of the forward one: entry by entry, the Linux key leads back to its Mac key. */
  lemma Backwards0() ensures LinuxToMacKeycode(KEY_A) == Some(0) {}
  lemma Backwards11() ensures LinuxToMacKeycode(KEY_B) == Some(11) {}
  lemma Backwards8() ensures LinuxToMacKeycode(KEY_C) == Some(8) {}
  lemma Backwards2() ensures LinuxToMacKeycode(KEY_D) == Some(2) {}
  lemma Backwards14() ensures LinuxToMacKeycode(KEY_E) == Some(14) {}
  lemma Backwards3() ensures LinuxToMacKeycode(KEY_F) == Some(3) {}
  lemma Backwards5() ensures LinuxToMacKeycode(KEY_G) == Some(5) {}
  lemma Backwards4() ensures LinuxToMacKeycode(KEY_H) == Some(4) {}
  lemma Backwards34() ensures LinuxToMacKeycode(KEY_I) == Some(34) {}
  lemma Backwards38() ensures LinuxToMacKeycode(KEY_J) == Some(38) {}
  lemma Backwards40() ensures LinuxToMacKeycode(KEY_K) == Some(40) {}
  lemma Backwards37() ensures LinuxToMacKeycode(KEY_L) == Some(37) {}
  lemma Backwards46() ensures LinuxToMacKeycode(KEY_M) == Some(46) {}
  lemma Backwards45() ensures LinuxToMacKeycode(KEY_N) == Some(45) {}
  lemma Backwards31() ensures LinuxToMacKeycode(KEY_O) == Some(31) {}
  lemma Backwards35() ensures LinuxToMacKeycode(KEY_P) == Some(35) {}
  lemma Backwards12() ensures LinuxToMacKeycode(KEY_Q) == Some(12) {}
  lemma Backwards15() ensures LinuxToMacKeycode(KEY_R) == Some(15) {}
  lemma Backwards1() ensures LinuxToMacKeycode(KEY_S) == Some(1) {}
  lemma Backwards17() ensures LinuxToMacKeycode(KEY_T) == Some(17) {}
  lemma Backwards32() ensures LinuxToMacKeycode(KEY_U) == Some(32) {}
  lemma Backwards9() ensures LinuxToMacKeycode(KEY_V) == Some(9) {}
  lemma Backwards13() ensures LinuxToMacKeycode(KEY_W) == Some(13) {}
  lemma Backwards7() ensures LinuxToMacKeycode(KEY_X) == Some(7) {}
  lemma Backwards16() ensures LinuxToMacKeycode(KEY_Y) == Some(16) {}
  lemma Backwards6() ensures LinuxToMacKeycode(KEY_Z) == Some(6) {}
  lemma Backwards29() ensures LinuxToMacKeycode(KEY_0) == Some(29) {}
  lemma Backwards18() ensures LinuxToMacKeycode(KEY_1) == Some(18) {}
  lemma Backwards19() ensures LinuxToMacKeycode(KEY_2) == Some(19) {}
  lemma Backwards20() ensures LinuxToMacKeycode(KEY_3) == Some(20) {}
  lemma Backwards21() ensures LinuxToMacKeycode(KEY_4) == Some(21) {}
  lemma Backwards23() ensures LinuxToMacKeycode(KEY_5) == Some(23) {}
  lemma Backwards22() ensures LinuxToMacKeycode(KEY_6) == Some(22) {}
  lemma Backwards26() ensures LinuxToMacKeycode(KEY_7) == Some(26) {}
  lemma Backwards28() ensures LinuxToMacKeycode(KEY_8) == Some(28) {}
  lemma Backwards25() ensures LinuxToMacKeycode(KEY_9) == Some(25) {}
  lemma Backwards49() ensures LinuxToMacKeycode(KEY_SPACE) == Some(49) {}
  lemma Backwards36() ensures LinuxToMacKeycode(KEY_ENTER) == Some(36) {}
  lemma Backwards51() ensures LinuxToMacKeycode(KEY_BACKSPACE) == Some(51) {}
  lemma Backwards48() ensures LinuxToMacKeycode(KEY_TAB) == Some(48) {}
  lemma Backwards53() ensures LinuxToMacKeycode(KEY_ESC) == Some(53) {}
  lemma Backwards43() ensures LinuxToMacKeycode(KEY_COMMA) == Some(43) {}
  lemma Backwards47() ensures LinuxToMacKeycode(KEY_DOT) == Some(47) {}
  lemma Backwards44() ensures LinuxToMacKeycode(KEY_SLASH) == Some(44) {}
  lemma Backwards41() ensures LinuxToMacKeycode(KEY_SEMICOLON) == Some(41) {}
  lemma Backwards39() ensures LinuxToMacKeycode(KEY_APOSTROPHE) == Some(39) {}
  lemma Backwards33() ensures LinuxToMacKeycode(KEY_LEFTBRACE) == Some(33) {}
  lemma Backwards30() ensures LinuxToMacKeycode(KEY_RIGHTBRACE) == Some(30) {}
  lemma Backwards42() ensures LinuxToMacKeycode(KEY_BACKSLASH) == Some(42) {}
  lemma Backwards50() ensures LinuxToMacKeycode(KEY_GRAVE) == Some(50) {}
  lemma Backwards27() ensures LinuxToMacKeycode(KEY_MINUS) == Some(27) {}
  lemma Backwards24() ensures LinuxToMacKeycode(KEY_EQUAL) == Some(24) {}
  lemma Backwards56() ensures LinuxToMacKeycode(KEY_LEFTSHIFT) == Some(56) {}
  lemma Backwards60() ensures LinuxToMacKeycode(KEY_RIGHTSHIFT) == Some(60) {}
  lemma Backwards59() ensures LinuxToMacKeycode(KEY_LEFTCTRL) == Some(59) {}
  lemma Backwards62() ensures LinuxToMacKeycode(KEY_RIGHTCTRL) == Some(62) {}
  lemma Backwards58() ensures LinuxToMacKeycode(KEY_LEFTALT) == Some(58) {}
  lemma Backwards61() ensures LinuxToMacKeycode(KEY_RIGHTALT) == Some(61) {}
  lemma Backwards55() ensures LinuxToMacKeycode(KEY_LEFTMETA) == Some(55) {}
  lemma Backwards54() ensures LinuxToMacKeycode(KEY_RIGHTMETA) == Some(54) {}
  lemma Backwards57() ensures LinuxToMacKeycode(KEY_CAPSLOCK) == Some(57) {}
  lemma Backwards122() ensures LinuxToMacKeycode(KEY_F1) == Some(122) {}
  lemma Backwards120() ensures LinuxToMacKeycode(KEY_F2) == Some(120) {}
  lemma Backwards99() ensures LinuxToMacKeycode(KEY_F3) == Some(99) {}
  lemma Backwards118() ensures LinuxToMacKeycode(KEY_F4) == Some(118) {}
  lemma Backwards96() ensures LinuxToMacKeycode(KEY_F5) == Some(96) {}
  lemma Backwards97() ensures LinuxToMacKeycode(KEY_F6) == Some(97) {}
  lemma Backwards98() ensures LinuxToMacKeycode(KEY_F7) == Some(98) {}
  lemma Backwards100() ensures LinuxToMacKeycode(KEY_F8) == Some(100) {}
  lemma Backwards101() ensures LinuxToMacKeycode(KEY_F9) == Some(101) {}
  lemma Backwards109() ensures LinuxToMacKeycode(KEY_F10) == Some(109) {}
  lemma Backwards103() ensures LinuxToMacKeycode(KEY_F11) == Some(103) {}
  lemma Backwards111() ensures LinuxToMacKeycode(KEY_F12) == Some(111) {}
  lemma Backwards123() ensures LinuxToMacKeycode(KEY_LEFT) == Some(123) {}
  lemma Backwards124() ensures LinuxToMacKeycode(KEY_RIGHT) == Some(124) {}
  lemma Backwards125() ensures LinuxToMacKeycode(KEY_DOWN) == Some(125) {}
  lemma Backwards126() ensures LinuxToMacKeycode(KEY_UP) == Some(126) {}
  lemma Backwards115() ensures LinuxToMacKeycode(KEY_HOME) == Some(115) {}
  lemma Backwards119() ensures LinuxToMacKeycode(KEY_END) == Some(119) {}
  lemma Backwards116() ensures LinuxToMacKeycode(KEY_PAGEUP) == Some(116) {}
  lemma Backwards121() ensures LinuxToMacKeycode(KEY_PAGEDOWN) == Some(121) {}
  lemma Backwards117() ensures LinuxToMacKeycode(KEY_DELETE) == Some(117) {}
  lemma Backwards114() ensures LinuxToMacKeycode(KEY_INSERT) == Some(114) {}
  lemma Backwards71() ensures LinuxToMacKeycode(KEY_NUMLOCK) == Some(71) {}
  lemma Backwards82() ensures LinuxToMacKeycode(KEY_KP0) == Some(82) {}
  lemma Backwards83() ensures LinuxToMacKeycode(KEY_KP1) == Some(83) {}
  lemma Backwards84() ensures LinuxToMacKeycode(KEY_KP2) == Some(84) {}
  lemma Backwards85() ensures LinuxToMacKeycode(KEY_KP3) == Some(85) {}
  lemma Backwards86() ensures LinuxToMacKeycode(KEY_KP4) == Some(86) {}
  lemma Backwards87() ensures LinuxToMacKeycode(KEY_KP5) == Some(87) {}
  lemma Backwards88() ensures LinuxToMacKeycode(KEY_KP6) == Some(88) {}
  lemma Backwards89() ensures LinuxToMacKeycode(KEY_KP7) == Some(89) {}
  lemma Backwards91() ensures LinuxToMacKeycode(KEY_KP8) == Some(91) {}
  lemma Backwards92() ensures LinuxToMacKeycode(KEY_KP9) == Some(92) {}
  lemma Backwards65() ensures LinuxToMacKeycode(KEY_KPDOT) == Some(65) {}
  lemma Backwards69() ensures LinuxToMacKeycode(KEY_KPPLUS) == Some(69) {}
  lemma Backwards78() ensures LinuxToMacKeycode(KEY_KPMINUS) == Some(78) {}
  lemma Backwards67() ensures LinuxToMacKeycode(KEY_KPASTERISK) == Some(67) {}
  lemma Backwards75() ensures LinuxToMacKeycode(KEY_KPSLASH) == Some(75) {}
  lemma Backwards76() ensures LinuxToMacKeycode(KEY_KPENTER) == Some(76) {}

  /** Reading the table backwards undoes it. */
  lemma LinuxToMacUndoes(mac: int)
    requires MacToLinuxKeycode(mac).Some?
    ensures LinuxToMacKeycode(MacToLinuxKeycode(mac).value) == Some(mac)
  {
    match mac
    case 0 => Backwards0();
    case 11 => Backwards11();
    case 8 => Backwards8();
    case 2 => Backwards2();
    case 14 => Backwards14();
    case 3 => Backwards3();
    case 5 => Backwards5();
    case 4 => Backwards4();
    case 34 => Backwards34();
    case 38 => Backwards38();
    case 40 => Backwards40();
    case 37 => Backwards37();
    case 46 => Backwards46();
    case 45 => Backwards45();
    case 31 => Backwards31();
    case 35 => Backwards35();
    case 12 => Backwards12();
    case 15 => Backwards15();
    case 1 => Backwards1();
    case 17 => Backwards17();
    case 32 => Backwards32();
    case 9 => Backwards9();
    case 13 => Backwards13();
    case 7 => Backwards7();
    case 16 => Backwards16();
    case 6 => Backwards6();
    case 29 => Backwards29();
    case 18 => Backwards18();
    case 19 => Backwards19();
    case 20 => Backwards20();
    case 21 => Backwards21();
    case 23 => Backwards23();
    case 22 => Backwards22();
    case 26 => Backwards26();
    case 28 => Backwards28();
    case 25 => Backwards25();
    case 49 => Backwards49();
    case 36 => Backwards36();
    case 51 => Backwards51();
    case 48 => Backwards48();
    case 53 => Backwards53();
    case 43 => Backwards43();
    case 47 => Backwards47();
    case 44 => Backwards44();
    case 41 => Backwards41();
    case 39 => Backwards39();
    case 33 => Backwards33();
    case 30 => Backwards30();
    case 42 => Backwards42();
    case 50 => Backwards50();
    case 27 => Backwards27();
    case 24 => Backwards24();
    case 56 => Backwards56();
    case 60 => Backwards60();
    case 59 => Backwards59();
    case 62 => Backwards62();
    case 58 => Backwards58();
    case 61 => Backwards61();
    case 55 => Backwards55();
    case 54 => Backwards54();
    case 57 => Backwards57();
    case 122 => Backwards122();
    case 120 => Backwards120();
    case 99 => Backwards99();
    case 118 => Backwards118();
    case 96 => Backwards96();
    case 97 => Backwards97();
    case 98 => Backwards98();
    case 100 => Backwards100();
    case 101 => Backwards101();
    case 109 => Backwards109();
    case 103 => Backwards103();
    case 111 => Backwards111();
    case 123 => Backwards123();
    case 124 => Backwards124();
    case 125 => Backwards125();
    case 126 => Backwards126();
    case 115 => Backwards115();
    case 119 => Backwards119();
    case 116 => Backwards116();
    case 121 => Backwards121();
    case 117 => Backwards117();
    case 114 => Backwards114();
    case 71 => Backwards71();
    case 82 => Backwards82();
    case 83 => Backwards83();
    case 84 => Backwards84();
    case 85 => Backwards85();
    case 86 => Backwards86();
    case 87 => Backwards87();
    case 88 => Backwards88();
    case 89 => Backwards89();
    case 91 => Backwards91();
    case 92 => Backwards92();
    case 65 => Backwards65();
    case 69 => Backwards69();
    case 78 => Backwards78();
    case 67 => Backwards67();
    case 75 => Backwards75();
    case 76 => Backwards76();
  }

  /** The table is one-to-one: no two Mac keys produce the same Linux key. */
  lemma MacToLinuxInjective(a: int, b: int)
    requires MacToLinuxKeycode(a).Some?
    requires MacToLinuxKeycode(a) == MacToLinuxKeycode(b)
    ensures a == b
  {
    LinuxToMacUndoes(a);
    LinuxToMacUndoes(b);
  }
}
