/**
 The 257-entry code table. It is a canonical code: codes of one length are
 consecutive, and the first code of a length is twice the code after the last one
 of the length before. Look-ups go through blocks of sixteen so that they are
 cheap to evaluate.
 */
module HuffmanTable {

  datatype Entry = Entry(code: int, len: int)

  /** The code of each symbol and its length in bits. */
  function Row(i: int): Entry {
    if i < 64 then
      if i < 16 then Row0(i) else if i < 32 then Row16(i) else if i < 48 then Row32(i) else Row48(i)
    else if i < 128 then
      if i < 80 then Row64(i) else if i < 96 then Row80(i) else if i < 112 then Row96(i) else Row112(i)
    else if i < 192 then
      if i < 144 then Row128(i) else if i < 160 then Row144(i) else if i < 176 then Row160(i) else Row176(i)
    else if i < 256 then
      if i < 208 then Row192(i) else if i < 224 then Row208(i) else if i < 240 then Row224(i) else Row240(i)
    else Entry(0x3fffffff, 30)
  }

  function Row0(i: int): Entry {
    if i == 0 then Entry(0x1ff8, 13)
    else if i == 1 then Entry(0x7fffd8, 23)
    else if i == 2 then Entry(0xfffffe2, 28)
    else if i == 3 then Entry(0xfffffe3, 28)
    else if i == 4 then Entry(0xfffffe4, 28)
    else if i == 5 then Entry(0xfffffe5, 28)
    else if i == 6 then Entry(0xfffffe6, 28)
    else if i == 7 then Entry(0xfffffe7, 28)
    else if i == 8 then Entry(0xfffffe8, 28)
    else if i == 9 then Entry(0xffffea, 24)
    else if i == 10 then Entry(0x3ffffffc, 30)
    else if i == 11 then Entry(0xfffffe9, 28)
    else if i == 12 then Entry(0xfffffea, 28)
    else if i == 13 then Entry(0x3ffffffd, 30)
    else if i == 14 then Entry(0xfffffeb, 28)
    else Entry(0xfffffec, 28)
  }

  function Row16(i: int): Entry {
    if i == 16 then Entry(0xfffffed, 28)
    else if i == 17 then Entry(0xfffffee, 28)
    else if i == 18 then Entry(0xfffffef, 28)
    else if i == 19 then Entry(0xffffff0, 28)
    else if i == 20 then Entry(0xffffff1, 28)
    else if i == 21 then Entry(0xffffff2, 28)
    else if i == 22 then Entry(0x3ffffffe, 30)
    else if i == 23 then Entry(0xffffff3, 28)
    else if i == 24 then Entry(0xffffff4, 28)
    else if i == 25 then Entry(0xffffff5, 28)
    else if i == 26 then Entry(0xffffff6, 28)
    else if i == 27 then Entry(0xffffff7, 28)
    else if i == 28 then Entry(0xffffff8, 28)
    else if i == 29 then Entry(0xffffff9, 28)
    else if i == 30 then Entry(0xffffffa, 28)
    else Entry(0xffffffb, 28)
  }

  function Row32(i: int): Entry {
    if i == 32 then Entry(0x14, 6)
    else if i == 33 then Entry(0x3f8, 10)
    else if i == 34 then Entry(0x3f9, 10)
    else if i == 35 then Entry(0xffa, 12)
    else if i == 36 then Entry(0x1ff9, 13)
    else if i == 37 then Entry(0x15, 6)
    else if i == 38 then Entry(0xf8, 8)
    else if i == 39 then Entry(0x7fa, 11)
    else if i == 40 then Entry(0x3fa, 10)
    else if i == 41 then Entry(0x3fb, 10)
    else if i == 42 then Entry(0xf9, 8)
    else if i == 43 then Entry(0x7fb, 11)
    else if i == 44 then Entry(0xfa, 8)
    else if i == 45 then Entry(0x16, 6)
    else if i == 46 then Entry(0x17, 6)
    else Entry(0x18, 6)
  }

  function Row48(i: int): Entry {
    if i == 48 then Entry(0x0, 5)
    else if i == 49 then Entry(0x1, 5)
    else if i == 50 then Entry(0x2, 5)
    else if i == 51 then Entry(0x19, 6)
    else if i == 52 then Entry(0x1a, 6)
    else if i == 53 then Entry(0x1b, 6)
    else if i == 54 then Entry(0x1c, 6)
    else if i == 55 then Entry(0x1d, 6)
    else if i == 56 then Entry(0x1e, 6)
    else if i == 57 then Entry(0x1f, 6)
    else if i == 58 then Entry(0x5c, 7)
    else if i == 59 then Entry(0xfb, 8)
    else if i == 60 then Entry(0x7ffc, 15)
    else if i == 61 then Entry(0x20, 6)
    else if i == 62 then Entry(0xffb, 12)
    else Entry(0x3fc, 10)
  }

  function Row64(i: int): Entry {
    if i == 64 then Entry(0x1ffa, 13)
    else if i == 65 then Entry(0x21, 6)
    else if i == 66 then Entry(0x5d, 7)
    else if i == 67 then Entry(0x5e, 7)
    else if i == 68 then Entry(0x5f, 7)
    else if i == 69 then Entry(0x60, 7)
    else if i == 70 then Entry(0x61, 7)
    else if i == 71 then Entry(0x62, 7)
    else if i == 72 then Entry(0x63, 7)
    else if i == 73 then Entry(0x64, 7)
    else if i == 74 then Entry(0x65, 7)
    else if i == 75 then Entry(0x66, 7)
    else if i == 76 then Entry(0x67, 7)
    else if i == 77 then Entry(0x68, 7)
    else if i == 78 then Entry(0x69, 7)
    else Entry(0x6a, 7)
  }

  function Row80(i: int): Entry {
    if i == 80 then Entry(0x6b, 7)
    else if i == 81 then Entry(0x6c, 7)
    else if i == 82 then Entry(0x6d, 7)
    else if i == 83 then Entry(0x6e, 7)
    else if i == 84 then Entry(0x6f, 7)
    else if i == 85 then Entry(0x70, 7)
    else if i == 86 then Entry(0x71, 7)
    else if i == 87 then Entry(0x72, 7)
    else if i == 88 then Entry(0xfc, 8)
    else if i == 89 then Entry(0x73, 7)
    else if i == 90 then Entry(0xfd, 8)
    else if i == 91 then Entry(0x1ffb, 13)
    else if i == 92 then Entry(0x7fff0, 19)
    else if i == 93 then Entry(0x1ffc, 13)
    else if i == 94 then Entry(0x3ffc, 14)
    else Entry(0x22, 6)
  }

  function Row96(i: int): Entry {
    if i == 96 then Entry(0x7ffd, 15)
    else if i == 97 then Entry(0x3, 5)
    else if i == 98 then Entry(0x23, 6)
    else if i == 99 then Entry(0x4, 5)
    else if i == 100 then Entry(0x24, 6)
    else if i == 101 then Entry(0x5, 5)
    else if i == 102 then Entry(0x25, 6)
    else if i == 103 then Entry(0x26, 6)
    else if i == 104 then Entry(0x27, 6)
    else if i == 105 then Entry(0x6, 5)
    else if i == 106 then Entry(0x74, 7)
    else if i == 107 then Entry(0x75, 7)
    else if i == 108 then Entry(0x28, 6)
    else if i == 109 then Entry(0x29, 6)
    else if i == 110 then Entry(0x2a, 6)
    else Entry(0x7, 5)
  }

  function Row112(i: int): Entry {
    if i == 112 then Entry(0x2b, 6)
    else if i == 113 then Entry(0x76, 7)
    else if i == 114 then Entry(0x2c, 6)
    else if i == 115 then Entry(0x8, 5)
    else if i == 116 then Entry(0x9, 5)
    else if i == 117 then Entry(0x2d, 6)
    else if i == 118 then Entry(0x77, 7)
    else if i == 119 then Entry(0x78, 7)
    else if i == 120 then Entry(0x79, 7)
    else if i == 121 then Entry(0x7a, 7)
    else if i == 122 then Entry(0x7b, 7)
    else if i == 123 then Entry(0x7ffe, 15)
    else if i == 124 then Entry(0x7fc, 11)
    else if i == 125 then Entry(0x3ffd, 14)
    else if i == 126 then Entry(0x1ffd, 13)
    else Entry(0xffffffc, 28)
  }

  function Row128(i: int): Entry {
    if i == 128 then Entry(0xfffe6, 20)
    else if i == 129 then Entry(0x3fffd2, 22)
    else if i == 130 then Entry(0xfffe7, 20)
    else if i == 131 then Entry(0xfffe8, 20)
    else if i == 132 then Entry(0x3fffd3, 22)
    else if i == 133 then Entry(0x3fffd4, 22)
    else if i == 134 then Entry(0x3fffd5, 22)
    else if i == 135 then Entry(0x7fffd9, 23)
    else if i == 136 then Entry(0x3fffd6, 22)
    else if i == 137 then Entry(0x7fffda, 23)
    else if i == 138 then Entry(0x7fffdb, 23)
    else if i == 139 then Entry(0x7fffdc, 23)
    else if i == 140 then Entry(0x7fffdd, 23)
    else if i == 141 then Entry(0x7fffde, 23)
    else if i == 142 then Entry(0xffffeb, 24)
    else Entry(0x7fffdf, 23)
  }

  function Row144(i: int): Entry {
    if i == 144 then Entry(0xffffec, 24)
    else if i == 145 then Entry(0xffffed, 24)
    else if i == 146 then Entry(0x3fffd7, 22)
    else if i == 147 then Entry(0x7fffe0, 23)
    else if i == 148 then Entry(0xffffee, 24)
    else if i == 149 then Entry(0x7fffe1, 23)
    else if i == 150 then Entry(0x7fffe2, 23)
    else if i == 151 then Entry(0x7fffe3, 23)
    else if i == 152 then Entry(0x7fffe4, 23)
    else if i == 153 then Entry(0x1fffdc, 21)
    else if i == 154 then Entry(0x3fffd8, 22)
    else if i == 155 then Entry(0x7fffe5, 23)
    else if i == 156 then Entry(0x3fffd9, 22)
    else if i == 157 then Entry(0x7fffe6, 23)
    else if i == 158 then Entry(0x7fffe7, 23)
    else Entry(0xffffef, 24)
  }

  function Row160(i: int): Entry {
    if i == 160 then Entry(0x3fffda, 22)
    else if i == 161 then Entry(0x1fffdd, 21)
    else if i == 162 then Entry(0xfffe9, 20)
    else if i == 163 then Entry(0x3fffdb, 22)
    else if i == 164 then Entry(0x3fffdc, 22)
    else if i == 165 then Entry(0x7fffe8, 23)
    else if i == 166 then Entry(0x7fffe9, 23)
    else if i == 167 then Entry(0x1fffde, 21)
    else if i == 168 then Entry(0x7fffea, 23)
    else if i == 169 then Entry(0x3fffdd, 22)
    else if i == 170 then Entry(0x3fffde, 22)
    else if i == 171 then Entry(0xfffff0, 24)
    else if i == 172 then Entry(0x1fffdf, 21)
    else if i == 173 then Entry(0x3fffdf, 22)
    else if i == 174 then Entry(0x7fffeb, 23)
    else Entry(0x7fffec, 23)
  }

  function Row176(i: int): Entry {
    if i == 176 then Entry(0x1fffe0, 21)
    else if i == 177 then Entry(0x1fffe1, 21)
    else if i == 178 then Entry(0x3fffe0, 22)
    else if i == 179 then Entry(0x1fffe2, 21)
    else if i == 180 then Entry(0x7fffed, 23)
    else if i == 181 then Entry(0x3fffe1, 22)
    else if i == 182 then Entry(0x7fffee, 23)
    else if i == 183 then Entry(0x7fffef, 23)
    else if i == 184 then Entry(0xfffea, 20)
    else if i == 185 then Entry(0x3fffe2, 22)
    else if i == 186 then Entry(0x3fffe3, 22)
    else if i == 187 then Entry(0x3fffe4, 22)
    else if i == 188 then Entry(0x7ffff0, 23)
    else if i == 189 then Entry(0x3fffe5, 22)
    else if i == 190 then Entry(0x3fffe6, 22)
    else Entry(0x7ffff1, 23)
  }

  function Row192(i: int): Entry {
    if i == 192 then Entry(0x3ffffe0, 26)
    else if i == 193 then Entry(0x3ffffe1, 26)
    else if i == 194 then Entry(0xfffeb, 20)
    else if i == 195 then Entry(0x7fff1, 19)
    else if i == 196 then Entry(0x3fffe7, 22)
    else if i == 197 then Entry(0x7ffff2, 23)
    else if i == 198 then Entry(0x3fffe8, 22)
    else if i == 199 then Entry(0x1ffffec, 25)
    else if i == 200 then Entry(0x3ffffe2, 26)
    else if i == 201 then Entry(0x3ffffe3, 26)
    else if i == 202 then Entry(0x3ffffe4, 26)
    else if i == 203 then Entry(0x7ffffde, 27)
    else if i == 204 then Entry(0x7ffffdf, 27)
    else if i == 205 then Entry(0x3ffffe5, 26)
    else if i == 206 then Entry(0xfffff1, 24)
    else Entry(0x1ffffed, 25)
  }

  function Row208(i: int): Entry {
    if i == 208 then Entry(0x7fff2, 19)
    else if i == 209 then Entry(0x1fffe3, 21)
    else if i == 210 then Entry(0x3ffffe6, 26)
    else if i == 211 then Entry(0x7ffffe0, 27)
    else if i == 212 then Entry(0x7ffffe1, 27)
    else if i == 213 then Entry(0x3ffffe7, 26)
    else if i == 214 then Entry(0x7ffffe2, 27)
    else if i == 215 then Entry(0xfffff2, 24)
    else if i == 216 then Entry(0x1fffe4, 21)
    else if i == 217 then Entry(0x1fffe5, 21)
    else if i == 218 then Entry(0x3ffffe8, 26)
    else if i == 219 then Entry(0x3ffffe9, 26)
    else if i == 220 then Entry(0xffffffd, 28)
    else if i == 221 then Entry(0x7ffffe3, 27)
    else if i == 222 then Entry(0x7ffffe4, 27)
    else Entry(0x7ffffe5, 27)
  }

  function Row224(i: int): Entry {
    if i == 224 then Entry(0xfffec, 20)
    else if i == 225 then Entry(0xfffff3, 24)
    else if i == 226 then Entry(0xfffed, 20)
    else if i == 227 then Entry(0x1fffe6, 21)
    else if i == 228 then Entry(0x3fffe9, 22)
    else if i == 229 then Entry(0x1fffe7, 21)
    else if i == 230 then Entry(0x1fffe8, 21)
    else if i == 231 then Entry(0x7ffff3, 23)
    else if i == 232 then Entry(0x3fffea, 22)
    else if i == 233 then Entry(0x3fffeb, 22)
    else if i == 234 then Entry(0x1ffffee, 25)
    else if i == 235 then Entry(0x1ffffef, 25)
    else if i == 236 then Entry(0xfffff4, 24)
    else if i == 237 then Entry(0xfffff5, 24)
    else if i == 238 then Entry(0x3ffffea, 26)
    else Entry(0x7ffff4, 23)
  }

  function Row240(i: int): Entry {
    if i == 240 then Entry(0x3ffffeb, 26)
    else if i == 241 then Entry(0x7ffffe6, 27)
    else if i == 242 then Entry(0x3ffffec, 26)
    else if i == 243 then Entry(0x3ffffed, 26)
    else if i == 244 then Entry(0x7ffffe7, 27)
    else if i == 245 then Entry(0x7ffffe8, 27)
    else if i == 246 then Entry(0x7ffffe9, 27)
    else if i == 247 then Entry(0x7ffffea, 27)
    else if i == 248 then Entry(0x7ffffeb, 27)
    else if i == 249 then Entry(0xffffffe, 28)
    else if i == 250 then Entry(0x7ffffec, 27)
    else if i == 251 then Entry(0x7ffffed, 27)
    else if i == 252 then Entry(0x7ffffee, 27)
    else if i == 253 then Entry(0x7ffffef, 27)
    else if i == 254 then Entry(0x7fffff0, 27)
    else Entry(0x3ffffee, 26)
  }

  /** The symbols in code order. */
  function Sym(i: int): int {
    if i < 64 then
      if i < 16 then Sym0(i) else if i < 32 then Sym16(i) else if i < 48 then Sym32(i) else Sym48(i)
    else if i < 128 then
      if i < 80 then Sym64(i) else if i < 96 then Sym80(i) else if i < 112 then Sym96(i) else Sym112(i)
    else if i < 192 then
      if i < 144 then Sym128(i) else if i < 160 then Sym144(i) else if i < 176 then Sym160(i) else Sym176(i)
    else if i < 256 then
      if i < 208 then Sym192(i) else if i < 224 then Sym208(i) else if i < 240 then Sym224(i) else Sym240(i)
    else 256
  }

  function Sym0(i: int): int {
    if i == 0 then 48
    else if i == 1 then 49
    else if i == 2 then 50
    else if i == 3 then 97
    else if i == 4 then 99
    else if i == 5 then 101
    else if i == 6 then 105
    else if i == 7 then 111
    else if i == 8 then 115
    else if i == 9 then 116
    else if i == 10 then 32
    else if i == 11 then 37
    else if i == 12 then 45
    else if i == 13 then 46
    else if i == 14 then 47
    else 51
  }

  function Sym16(i: int): int {
    if i == 16 then 52
    else if i == 17 then 53
    else if i == 18 then 54
    else if i == 19 then 55
    else if i == 20 then 56
    else if i == 21 then 57
    else if i == 22 then 61
    else if i == 23 then 65
    else if i == 24 then 95
    else if i == 25 then 98
    else if i == 26 then 100
    else if i == 27 then 102
    else if i == 28 then 103
    else if i == 29 then 104
    else if i == 30 then 108
    else 109
  }

  function Sym32(i: int): int {
    if i == 32 then 110
    else if i == 33 then 112
    else if i == 34 then 114
    else if i == 35 then 117
    else if i == 36 then 58
    else if i == 37 then 66
    else if i == 38 then 67
    else if i == 39 then 68
    else if i == 40 then 69
    else if i == 41 then 70
    else if i == 42 then 71
    else if i == 43 then 72
    else if i == 44 then 73
    else if i == 45 then 74
    else if i == 46 then 75
    else 76
  }

  function Sym48(i: int): int {
    if i == 48 then 77
    else if i == 49 then 78
    else if i == 50 then 79
    else if i == 51 then 80
    else if i == 52 then 81
    else if i == 53 then 82
    else if i == 54 then 83
    else if i == 55 then 84
    else if i == 56 then 85
    else if i == 57 then 86
    else if i == 58 then 87
    else if i == 59 then 89
    else if i == 60 then 106
    else if i == 61 then 107
    else if i == 62 then 113
    else 118
  }

  function Sym64(i: int): int {
    if i == 64 then 119
    else if i == 65 then 120
    else if i == 66 then 121
    else if i == 67 then 122
    else if i == 68 then 38
    else if i == 69 then 42
    else if i == 70 then 44
    else if i == 71 then 59
    else if i == 72 then 88
    else if i == 73 then 90
    else if i == 74 then 33
    else if i == 75 then 34
    else if i == 76 then 40
    else if i == 77 then 41
    else if i == 78 then 63
    else 39
  }

  function Sym80(i: int): int {
    if i == 80 then 43
    else if i == 81 then 124
    else if i == 82 then 35
    else if i == 83 then 62
    else if i == 84 then 0
    else if i == 85 then 36
    else if i == 86 then 64
    else if i == 87 then 91
    else if i == 88 then 93
    else if i == 89 then 126
    else if i == 90 then 94
    else if i == 91 then 125
    else if i == 92 then 60
    else if i == 93 then 96
    else if i == 94 then 123
    else 92
  }

  function Sym96(i: int): int {
    if i == 96 then 195
    else if i == 97 then 208
    else if i == 98 then 128
    else if i == 99 then 130
    else if i == 100 then 131
    else if i == 101 then 162
    else if i == 102 then 184
    else if i == 103 then 194
    else if i == 104 then 224
    else if i == 105 then 226
    else if i == 106 then 153
    else if i == 107 then 161
    else if i == 108 then 167
    else if i == 109 then 172
    else if i == 110 then 176
    else 177
  }

  function Sym112(i: int): int {
    if i == 112 then 179
    else if i == 113 then 209
    else if i == 114 then 216
    else if i == 115 then 217
    else if i == 116 then 227
    else if i == 117 then 229
    else if i == 118 then 230
    else if i == 119 then 129
    else if i == 120 then 132
    else if i == 121 then 133
    else if i == 122 then 134
    else if i == 123 then 136
    else if i == 124 then 146
    else if i == 125 then 154
    else if i == 126 then 156
    else 160
  }

  function Sym128(i: int): int {
    if i == 128 then 163
    else if i == 129 then 164
    else if i == 130 then 169
    else if i == 131 then 170
    else if i == 132 then 173
    else if i == 133 then 178
    else if i == 134 then 181
    else if i == 135 then 185
    else if i == 136 then 186
    else if i == 137 then 187
    else if i == 138 then 189
    else if i == 139 then 190
    else if i == 140 then 196
    else if i == 141 then 198
    else if i == 142 then 228
    else 232
  }

  function Sym144(i: int): int {
    if i == 144 then 233
    else if i == 145 then 1
    else if i == 146 then 135
    else if i == 147 then 137
    else if i == 148 then 138
    else if i == 149 then 139
    else if i == 150 then 140
    else if i == 151 then 141
    else if i == 152 then 143
    else if i == 153 then 147
    else if i == 154 then 149
    else if i == 155 then 150
    else if i == 156 then 151
    else if i == 157 then 152
    else if i == 158 then 155
    else 157
  }

  function Sym160(i: int): int {
    if i == 160 then 158
    else if i == 161 then 165
    else if i == 162 then 166
    else if i == 163 then 168
    else if i == 164 then 174
    else if i == 165 then 175
    else if i == 166 then 180
    else if i == 167 then 182
    else if i == 168 then 183
    else if i == 169 then 188
    else if i == 170 then 191
    else if i == 171 then 197
    else if i == 172 then 231
    else if i == 173 then 239
    else if i == 174 then 9
    else 142
  }

  function Sym176(i: int): int {
    if i == 176 then 144
    else if i == 177 then 145
    else if i == 178 then 148
    else if i == 179 then 159
    else if i == 180 then 171
    else if i == 181 then 206
    else if i == 182 then 215
    else if i == 183 then 225
    else if i == 184 then 236
    else if i == 185 then 237
    else if i == 186 then 199
    else if i == 187 then 207
    else if i == 188 then 234
    else if i == 189 then 235
    else if i == 190 then 192
    else 193
  }

  function Sym192(i: int): int {
    if i == 192 then 200
    else if i == 193 then 201
    else if i == 194 then 202
    else if i == 195 then 205
    else if i == 196 then 210
    else if i == 197 then 213
    else if i == 198 then 218
    else if i == 199 then 219
    else if i == 200 then 238
    else if i == 201 then 240
    else if i == 202 then 242
    else if i == 203 then 243
    else if i == 204 then 255
    else if i == 205 then 203
    else if i == 206 then 204
    else 211
  }

  function Sym208(i: int): int {
    if i == 208 then 212
    else if i == 209 then 214
    else if i == 210 then 221
    else if i == 211 then 222
    else if i == 212 then 223
    else if i == 213 then 241
    else if i == 214 then 244
    else if i == 215 then 245
    else if i == 216 then 246
    else if i == 217 then 247
    else if i == 218 then 248
    else if i == 219 then 250
    else if i == 220 then 251
    else if i == 221 then 252
    else if i == 222 then 253
    else 254
  }

  function Sym224(i: int): int {
    if i == 224 then 2
    else if i == 225 then 3
    else if i == 226 then 4
    else if i == 227 then 5
    else if i == 228 then 6
    else if i == 229 then 7
    else if i == 230 then 8
    else if i == 231 then 11
    else if i == 232 then 12
    else if i == 233 then 14
    else if i == 234 then 15
    else if i == 235 then 16
    else if i == 236 then 17
    else if i == 237 then 18
    else if i == 238 then 19
    else 20
  }

  function Sym240(i: int): int {
    if i == 240 then 21
    else if i == 241 then 23
    else if i == 242 then 24
    else if i == 243 then 25
    else if i == 244 then 26
    else if i == 245 then 27
    else if i == 246 then 28
    else if i == 247 then 29
    else if i == 248 then 30
    else if i == 249 then 31
    else if i == 250 then 127
    else if i == 251 then 220
    else if i == 252 then 249
    else if i == 253 then 10
    else if i == 254 then 13
    else 22
  }

  /** How many codes have each length. */
  function Count(len: int): int {
    if len == 5 then 10
    else if len == 6 then 26
    else if len == 7 then 32
    else if len == 8 then 6
    else if len == 9 then 0
    else if len == 10 then 5
    else if len == 11 then 3
    else if len == 12 then 2
    else if len == 13 then 6
    else if len == 14 then 2
    else if len == 15 then 3
    else if len == 16 then 0
    else if len == 17 then 0
    else if len == 18 then 0
    else if len == 19 then 3
    else if len == 20 then 8
    else if len == 21 then 13
    else if len == 22 then 26
    else if len == 23 then 29
    else if len == 24 then 12
    else if len == 25 then 4
    else if len == 26 then 15
    else if len == 27 then 19
    else if len == 28 then 29
    else if len == 29 then 0
    else 4
  }

  /** The first code of each length. */
  function First(len: int): int {
    if len == 5 then 0x0
    else if len == 6 then 0x14
    else if len == 7 then 0x5c
    else if len == 8 then 0xf8
    else if len == 9 then 0x1fc
    else if len == 10 then 0x3f8
    else if len == 11 then 0x7fa
    else if len == 12 then 0xffa
    else if len == 13 then 0x1ff8
    else if len == 14 then 0x3ffc
    else if len == 15 then 0x7ffc
    else if len == 16 then 0xfffe
    else if len == 17 then 0x1fffc
    else if len == 18 then 0x3fff8
    else if len == 19 then 0x7fff0
    else if len == 20 then 0xfffe6
    else if len == 21 then 0x1fffdc
    else if len == 22 then 0x3fffd2
    else if len == 23 then 0x7fffd8
    else if len == 24 then 0xffffea
    else if len == 25 then 0x1ffffec
    else if len == 26 then 0x3ffffe0
    else if len == 27 then 0x7ffffde
    else if len == 28 then 0xfffffe2
    else if len == 29 then 0x1ffffffe
    else if len == 30 then 0x3ffffffc
    else 0x80000000
  }

  /** The rank, in code order, of the first code of each length. */
  function Base(len: int): int {
    if len == 5 then 0
    else if len == 6 then 10
    else if len == 7 then 36
    else if len == 8 then 68
    else if len == 9 then 74
    else if len == 10 then 74
    else if len == 11 then 79
    else if len == 12 then 82
    else if len == 13 then 84
    else if len == 14 then 90
    else if len == 15 then 92
    else if len == 16 then 95
    else if len == 17 then 95
    else if len == 18 then 95
    else if len == 19 then 95
    else if len == 20 then 98
    else if len == 21 then 106
    else if len == 22 then 119
    else if len == 23 then 145
    else if len == 24 then 174
    else if len == 25 then 186
    else if len == 26 then 190
    else if len == 27 then 205
    else if len == 28 then 224
    else if len == 29 then 253
    else if len == 30 then 253
    else 257
  }

  /** The place of symbol `i` in code order. */
  function Rank(i: int): int {
    Base(Row(i).len) + Row(i).code - First(Row(i).len)
  }

  predicate RowOk(i: int) {
    && 5 <= Row(i).len <= 30
    && First(Row(i).len) <= Row(i).code < First(Row(i).len) + Count(Row(i).len)
    && Sym(Rank(i)) == i
  }

  lemma Rows0()
    ensures RowOk(0) && RowOk(1) && RowOk(2) && RowOk(3)
  {
  }

  lemma Rows4()
    ensures RowOk(4) && RowOk(5) && RowOk(6) && RowOk(7)
  {
  }

  lemma Rows8()
    ensures RowOk(8) && RowOk(9) && RowOk(10) && RowOk(11)
  {
  }

  lemma Rows12()
    ensures RowOk(12) && RowOk(13) && RowOk(14) && RowOk(15)
  {
  }

  lemma Rows16()
    ensures RowOk(16) && RowOk(17) && RowOk(18) && RowOk(19)
  {
  }

  lemma Rows20()
    ensures RowOk(20) && RowOk(21) && RowOk(22) && RowOk(23)
  {
  }

  lemma Rows24()
    ensures RowOk(24) && RowOk(25) && RowOk(26) && RowOk(27)
  {
  }

  lemma Rows28()
    ensures RowOk(28) && RowOk(29) && RowOk(30) && RowOk(31)
  {
  }

  lemma Rows32()
    ensures RowOk(32) && RowOk(33) && RowOk(34) && RowOk(35)
  {
  }

  lemma Rows36()
    ensures RowOk(36) && RowOk(37) && RowOk(38) && RowOk(39)
  {
  }

  lemma Rows40()
    ensures RowOk(40) && RowOk(41) && RowOk(42) && RowOk(43)
  {
  }

  lemma Rows44()
    ensures RowOk(44) && RowOk(45) && RowOk(46) && RowOk(47)
  {
  }

  lemma Rows48()
    ensures RowOk(48) && RowOk(49) && RowOk(50) && RowOk(51)
  {
  }

  lemma Rows52()
    ensures RowOk(52) && RowOk(53) && RowOk(54) && RowOk(55)
  {
  }

  lemma Rows56()
    ensures RowOk(56) && RowOk(57) && RowOk(58) && RowOk(59)
  {
  }

  lemma Rows60()
    ensures RowOk(60) && RowOk(61) && RowOk(62) && RowOk(63)
  {
  }

  lemma Rows64()
    ensures RowOk(64) && RowOk(65) && RowOk(66) && RowOk(67)
  {
  }

  lemma Rows68()
    ensures RowOk(68) && RowOk(69) && RowOk(70) && RowOk(71)
  {
  }

  lemma Rows72()
    ensures RowOk(72) && RowOk(73) && RowOk(74) && RowOk(75)
  {
  }

  lemma Rows76()
    ensures RowOk(76) && RowOk(77) && RowOk(78) && RowOk(79)
  {
  }

  lemma Rows80()
    ensures RowOk(80) && RowOk(81) && RowOk(82) && RowOk(83)
  {
  }

  lemma Rows84()
    ensures RowOk(84) && RowOk(85) && RowOk(86) && RowOk(87)
  {
  }

  lemma Rows88()
    ensures RowOk(88) && RowOk(89) && RowOk(90) && RowOk(91)
  {
  }

  lemma Rows92()
    ensures RowOk(92) && RowOk(93) && RowOk(94) && RowOk(95)
  {
  }

  lemma Rows96()
    ensures RowOk(96) && RowOk(97) && RowOk(98) && RowOk(99)
  {
  }

  lemma Rows100()
    ensures RowOk(100) && RowOk(101) && RowOk(102) && RowOk(103)
  {
  }

  lemma Rows104()
    ensures RowOk(104) && RowOk(105) && RowOk(106) && RowOk(107)
  {
  }

  lemma Rows108()
    ensures RowOk(108) && RowOk(109) && RowOk(110) && RowOk(111)
  {
  }

  lemma Rows112()
    ensures RowOk(112) && RowOk(113) && RowOk(114) && RowOk(115)
  {
  }

  lemma Rows116()
    ensures RowOk(116) && RowOk(117) && RowOk(118) && RowOk(119)
  {
  }

  lemma Rows120()
    ensures RowOk(120) && RowOk(121) && RowOk(122) && RowOk(123)
  {
  }

  lemma Rows124()
    ensures RowOk(124) && RowOk(125) && RowOk(126) && RowOk(127)
  {
  }

  lemma Rows128()
    ensures RowOk(128) && RowOk(129) && RowOk(130) && RowOk(131)
  {
  }

  lemma Rows132()
    ensures RowOk(132) && RowOk(133) && RowOk(134) && RowOk(135)
  {
  }

  lemma Rows136()
    ensures RowOk(136) && RowOk(137) && RowOk(138) && RowOk(139)
  {
  }

  lemma Rows140()
    ensures RowOk(140) && RowOk(141) && RowOk(142) && RowOk(143)
  {
  }

  lemma Rows144()
    ensures RowOk(144) && RowOk(145) && RowOk(146) && RowOk(147)
  {
  }

  lemma Rows148()
    ensures RowOk(148) && RowOk(149) && RowOk(150) && RowOk(151)
  {
  }

  lemma Rows152()
    ensures RowOk(152) && RowOk(153) && RowOk(154) && RowOk(155)
  {
  }

  lemma Rows156()
    ensures RowOk(156) && RowOk(157) && RowOk(158) && RowOk(159)
  {
  }

  lemma Rows160()
    ensures RowOk(160) && RowOk(161) && RowOk(162) && RowOk(163)
  {
  }

  lemma Rows164()
    ensures RowOk(164) && RowOk(165) && RowOk(166) && RowOk(167)
  {
  }

  lemma Rows168()
    ensures RowOk(168) && RowOk(169) && RowOk(170) && RowOk(171)
  {
  }

  lemma Rows172()
    ensures RowOk(172) && RowOk(173) && RowOk(174) && RowOk(175)
  {
  }

  lemma Rows176()
    ensures RowOk(176) && RowOk(177) && RowOk(178) && RowOk(179)
  {
  }

  lemma Rows180()
    ensures RowOk(180) && RowOk(181) && RowOk(182) && RowOk(183)
  {
  }

  lemma Rows184()
    ensures RowOk(184) && RowOk(185) && RowOk(186) && RowOk(187)
  {
  }

  lemma Rows188()
    ensures RowOk(188) && RowOk(189) && RowOk(190) && RowOk(191)
  {
  }

  lemma Rows192()
    ensures RowOk(192) && RowOk(193) && RowOk(194) && RowOk(195)
  {
  }

  lemma Rows196()
    ensures RowOk(196) && RowOk(197) && RowOk(198) && RowOk(199)
  {
  }

  lemma Rows200()
    ensures RowOk(200) && RowOk(201) && RowOk(202) && RowOk(203)
  {
  }

  lemma Rows204()
    ensures RowOk(204) && RowOk(205) && RowOk(206) && RowOk(207)
  {
  }

  lemma Rows208()
    ensures RowOk(208) && RowOk(209) && RowOk(210) && RowOk(211)
  {
  }

  lemma Rows212()
    ensures RowOk(212) && RowOk(213) && RowOk(214) && RowOk(215)
  {
  }

  lemma Rows216()
    ensures RowOk(216) && RowOk(217) && RowOk(218) && RowOk(219)
  {
  }

  lemma Rows220()
    ensures RowOk(220) && RowOk(221) && RowOk(222) && RowOk(223)
  {
  }

  lemma Rows224()
    ensures RowOk(224) && RowOk(225) && RowOk(226) && RowOk(227)
  {
  }

  lemma Rows228()
    ensures RowOk(228) && RowOk(229) && RowOk(230) && RowOk(231)
  {
  }

  lemma Rows232()
    ensures RowOk(232) && RowOk(233) && RowOk(234) && RowOk(235)
  {
  }

  lemma Rows236()
    ensures RowOk(236) && RowOk(237) && RowOk(238) && RowOk(239)
  {
  }

  lemma Rows240()
    ensures RowOk(240) && RowOk(241) && RowOk(242) && RowOk(243)
  {
  }

  lemma Rows244()
    ensures RowOk(244) && RowOk(245) && RowOk(246) && RowOk(247)
  {
  }

  lemma Rows248()
    ensures RowOk(248) && RowOk(249) && RowOk(250) && RowOk(251)
  {
  }

  lemma Rows252()
    ensures RowOk(252) && RowOk(253) && RowOk(254) && RowOk(255)
  {
  }

  lemma Rows256()
    ensures RowOk(256)
  {
  }

}
